/** Replies and commands in the notation of the Redis serialization protocol (RESP2), and what the
    parser makes of them. */
module RespRoundTrip {
  import opened Wrappers
  import opened StringSearch
  import opened RespMachine
  import opened RespChunking

  // ---------------------------------------------------------------- the notation

  datatype Tree =
    | SimpleText(s: seq<int>)
    | ErrorText(s: seq<int>)
    | Int(v: int)
    | BulkText(s: seq<int>)
    | NullBulk
    | NullArray
    | Array(trees: seq<Tree>)

  /** Decimal digits, as std::to_string prints them. */
  function Dec(n: nat): seq<int> { if n < 10 then [48 + n] else Dec(n / 10) + [48 + n % 10] }

  function DecInt(v: int): seq<int> { if v < 0 then [45] + Dec(-v) else Dec(v) }

  function Kinds(t: Tree): Type {
    match t
    case SimpleText(_) => TSimple
    case ErrorText(_) => TError
    case Int(_) => TInteger
    case BulkText(_) => TBulk
    case NullBulk => TBulk
    case NullArray => TArray
    case Array(_) => TArray
  }

  function Lead(ty: Type): int {
    match ty case TSimple => 43 case TError => 45 case TInteger => 58 case TBulk => 36 case TArray => 42
  }

  /** The end of a line. */
  const END: seq<int> := [13, 10]

  /** A reply without its leading byte. */
  function Body(t: Tree): seq<int>
    decreases t, 0
  {
    match t
    case SimpleText(s) => s + END
    case ErrorText(s) => s + END
    case Int(v) => DecInt(v) + END
    case BulkText(s) => Dec(|s|) + END + s + END
    case NullBulk => DecInt(-1) + END
    case NullArray => DecInt(-1) + END
    case Array(ts) => Dec(|ts|) + END + PrintAll(ts)
  }

  function Print(t: Tree): seq<int>
    decreases t, 1
  {
    [Lead(Kinds(t))] + Body(t)
  }

  function PrintAll(ts: seq<Tree>): seq<int>
    decreases ts, 2
  {
    if ts == [] then [] else Print(ts[0]) + PrintAll(ts[1..])
  }

  /** The parser's reply for a tree. */
  function Val(t: Tree): Reply {
    match t
    case SimpleText(s) => Text(Simple, [s], |s|)
    case ErrorText(s) => Text(Error, [s], |s|)
    case Int(v) => Number(v)
    case BulkText(s) => Text(Bulk, [s], |s|)
    case NullBulk => Null(false)
    case NullArray => Null(true)
    case Array(ts) => Arr(Vals(ts))
  }

  function Vals(ts: seq<Tree>): (rs: seq<Reply>)
    ensures |rs| == |ts|
  {
    if ts == [] then [] else Vals(ts[..|ts| - 1]) + [Val(ts[|ts| - 1])]
  }

  /** What the parser can hold: lines without a carriage return and within one buffer, 64-bit
      numbers, 32-bit lengths. */
  predicate Fits(t: Tree) {
    match t
    case SimpleText(s) => 13 !in s && |s| <= 4096
    case ErrorText(s) => 13 !in s && |s| <= 4096
    case Int(v) => -0x8000_0000_0000_0000 <= v < 0x8000_0000_0000_0000
    case BulkText(s) => |s| + 3 < 0x1_0000_0000
    case NullBulk => true
    case NullArray => true
    case Array(ts) => |ts| < 0x1_0000_0000 && AllFit(ts)
  }

  predicate AllFit(ts: seq<Tree>) { ts == [] || (AllFit(ts[..|ts| - 1]) && Fits(ts[|ts| - 1])) }

  /** Builders needed on top of the one that asks for the content. */
  function Need(t: Tree): nat { match t case Int(_) => 0 case Array(ts) => 1 + NeedAll(ts) case _ => 1 }

  function NeedAll(ts: seq<Tree>): nat {
    if ts == [] then 0
    else var a, b := NeedAll(ts[..|ts| - 1]), Need(ts[|ts| - 1]); if a > b then a else b
  }

  // ---------------------------------------------------------------- numbers

  lemma {:induction false} DecDigits(n: nat)
    ensures Dec(n) != [] && forall b | b in Dec(n) :: 48 <= b <= 57
  {
    if n >= 10 { DecDigits(n / 10); }
  }

  lemma WrapIs(x: int) returns (k: int)
    ensures Wrap64(x) == x + k * 0x1_0000_0000_0000_0000
  {
    k := -((x + 0x8000_0000_0000_0000) / 0x1_0000_0000_0000_0000);
  }

  lemma WrapShift(x: int, k: int)
    ensures Wrap64(x + k * 0x1_0000_0000_0000_0000) == Wrap64(x)
  {
  }

  lemma Wraps64(a: int, b: int)
    ensures Wrap64(Wrap64(Wrap64(a) * 10) + b) == Wrap64(a * 10 + b)
  {
    hide Wrap64;
    var k := WrapIs(a);
    WrapShift(a * 10, 10 * k);
    var l := WrapIs(a * 10);
    WrapShift(a * 10 + b, l);
  }

  lemma {:induction false} DigitsOfDec(pre: seq<int>, n: nat)
    requires Digits(pre) == 0
    ensures Digits(pre + Dec(n)) == Wrap64(n)
  {
    var s := pre + Dec(n);
    if n >= 10 {
      DigitsOfDec(pre, n / 10);
      assert s == pre + Dec(n / 10) + [48 + n % 10];
      assert s[..|s| - 1] == pre + Dec(n / 10);
      Wraps64(n / 10, n % 10);
    } else {
      assert s[..|s| - 1] == pre;
    }
  }

  lemma NegWraps(v: int)
    requires -0x8000_0000_0000_0000 <= v < 0x8000_0000_0000_0000
    ensures Wrap64(Wrap64(-v) * -1) == v && Wrap64(v) == v
  {
  }

  /** Reading back a printed number, the most negative one included. */
  lemma IntValueOfDec(v: int)
    requires -0x8000_0000_0000_0000 <= v < 0x8000_0000_0000_0000
    ensures IntValue(DecInt(v)) == v
  {
    var s := DecInt(v);
    MinusIsNothing();
    hide Digits, Wrap64, Dec;
    NegWraps(v);
    if v < 0 {
      DigitsOfDec([45], -v);
      assert s[0] == 45;
    } else {
      DecDigits(v);
      DigitsOfDec([], v);
      assert [] + s == s;
    }
  }

  lemma MinusIsNothing()
    ensures Digits([]) == 0 && Digits([45]) == 0
  {
  }

  lemma NoReturnInDec(v: int)
    ensures 13 !in DecInt(v)
  {
    DecDigits(if v < 0 then -v else v);
  }

  lemma ReadLine(s: seq<int>, rest: seq<int>)
    requires 13 !in s
    ensures var h := s + CRLF + rest; LineEnd(h) == |s| && |s| + 2 <= |h| && h[..|s|] == s && h[|s| + 2..] == rest
  {
    assert s + CRLF + rest == s + (CRLF + rest);
    LineEndHere(s, CRLF + rest);
  }

  // ---------------------------------------------------------------- one reply

  /** A builder working on top of others. */
  function Working(below: seq<Frame>, f: Frame, input: seq<int>, out: seq<Reply>): Config {
    Config(below + [f], input, None, out)
  }

  lemma TopOf(below: seq<Frame>, f: Frame, input: seq<int>, out: seq<Reply>)
    ensures var c := Working(below, f, input, out);
            && c.stack != [] && Top(c) == f && c.stack[..|c.stack| - 1] == below
            && forall g :: SetTop(c, g) == Working(below, g, input, out)
  {
    var c := Working(below, f, input, out);
    assert c.stack[..|c.stack| - 1] == below;
    forall g ensures SetTop(c, g) == Working(below, g, input, out) {
      assert c.stack[|c.stack| - 1 := g] == below + [g];
    }
  }

  lemma AppendOnce(p: seq<int>, n: int)
    requires 0 <= n <= |p| && n <= BUF_SIZE
    ensures Append([[]], p, n) == [p[..n]]
  {
    if n > 0 {
      var b := Overlay([], p, n);
      assert b == p[..n];
      assert [[]][0 := b] == [b];
      assert Append([b], p, 0) == [b];
    }
  }

  lemma TextRuns(below: seq<Frame>, kind: Kind, s: seq<int>, rest: seq<int>, out: seq<Reply>)
    requires 13 !in s && |s| <= BUF_SIZE
    ensures Same(Working(below, SimpleFrame(kind, false, 0, []), s + CRLF + rest, out),
                 Config(below, rest, Some(Text(kind, [s], |s|)), out))
  {
    hide LineEnd, Append, Run, Last;
    var input := s + CRLF + rest;
    TopOf(below, SimpleFrame(kind, false, 0, []), input, out);
    Unfolds(Working(below, SimpleFrame(kind, false, 0, []), input, out));
    TopOf(below, SimpleFrame(kind, true, 0, [[]]), input, out);
    Unfolds(Working(below, SimpleFrame(kind, true, 0, [[]]), input, out));
    ReadLine(s, rest);
    AppendOnce(input, |s|);
  }

  lemma BulkStarts(below: seq<Frame>, n: nat, tail: seq<int>, out: seq<Reply>)
    requires n + 3 < U32
    ensures Same(Working(below, BulkFrame(false, 0, []), Dec(n) + CRLF + tail, out),
                 Working(below, BulkFrame(true, n, []), tail, out))
  {
    hide LineEnd, Run, Last, IntValue, Dec;
    var f, input := BulkFrame(false, 0, []), Dec(n) + CRLF + tail;
    NoReturnInDec(n);
    ReadLine(Dec(n), tail);
    IntValueOfDec(n);
    TopOf(below, f, input, out);
    TopOf(below, f, tail, out);
    Unfolds(Working(below, f, input, out));
  }

  lemma PayloadRuns(below: seq<Frame>, s: seq<int>, rest: seq<int>, out: seq<Reply>)
    ensures Same(Working(below, BulkFrame(true, |s|, []), s + CRLF + rest, out),
                 Config(below, rest, Some(Text(Bulk, [s], |s|)), out))
  {
    hide Run, Last, BulkData;
    var f, tail := BulkFrame(true, |s|, []), s + CRLF + rest;
    TopOf(below, f, tail, out);
    Unfolds(Working(below, f, tail, out));
    BulkIsSeen(Working(below, f, tail, out));
    assert [] + tail == tail;
    assert tail[..|s|] == s && tail[|s|..|s| + 2] == CRLF && tail[|s| + 2..] == rest;
  }

  lemma BulkRuns(below: seq<Frame>, s: seq<int>, rest: seq<int>, out: seq<Reply>)
    requires |s| + 3 < U32
    ensures Same(Working(below, BulkFrame(false, 0, []), Dec(|s|) + CRLF + s + CRLF + rest, out),
                 Config(below, rest, Some(Text(Bulk, [s], |s|)), out))
  {
    hide Run, Last, Dec, Working;
    BulkStarts(below, |s|, s + CRLF + rest, out);
    PayloadRuns(below, s, rest, out);
    assert Dec(|s|) + CRLF + (s + CRLF + rest) == Dec(|s|) + CRLF + s + CRLF + rest;
  }

  /** Any negative length means null. */
  lemma NullRuns(below: seq<Frame>, f: Frame, v: int, rest: seq<int>, out: seq<Reply>)
    requires f == BulkFrame(false, 0, []) || f == ArrayFrame(ALen, 0, [], TInteger)
    requires -0x8000_0000_0000_0000 <= v < 0
    ensures Same(Working(below, f, DecInt(v) + CRLF + rest, out),
                 Config(below, rest, Some(Null(f.ArrayFrame?)), out))
  {
    hide LineEnd, Run, Last, IntValue, DecInt;
    NoReturnInDec(v);
    ReadLine(DecInt(v), rest);
    IntValueOfDec(v);
    TopOf(below, f, DecInt(v) + CRLF + rest, out);
    Unfolds(Working(below, f, DecInt(v) + CRLF + rest, out));
  }

  lemma IntRuns(c: Config, v: int, rest: seq<int>)
    requires Fits(Int(v)) && c.input == DecInt(v) + CRLF + rest
    ensures Content(c, TInteger) == Go(c.(input := rest, ret := Some(Number(v))))
  {
    hide LineEnd, IntValue, DecInt;
    NoReturnInDec(v);
    ReadLine(DecInt(v), rest);
    IntValueOfDec(v);
  }

  lemma ArrayStarts(below: seq<Frame>, n: nat, tail: seq<int>, out: seq<Reply>)
    requires n < U32
    ensures Same(Working(below, ArrayFrame(ALen, 0, [], TInteger), Dec(n) + CRLF + tail, out),
                 if n == 0 then Config(below, tail, Some(Arr([])), out)
                   else Working(below, ArrayFrame(AType, n, [], TInteger), tail, out))
  {
    hide LineEnd, Run, Last, IntValue, Dec;
    var f, input := ArrayFrame(ALen, 0, [], TInteger), Dec(n) + CRLF + tail;
    NoReturnInDec(n);
    ReadLine(Dec(n), tail);
    IntValueOfDec(n);
    TopOf(below, f, input, out);
    TopOf(below, f, tail, out);
    Unfolds(Working(below, f, input, out));
  }

  lemma TypeTaken(below: seq<Frame>, f: Frame, ty: Type, tail: seq<int>, out: seq<Reply>)
    requires (f.TopFrame? && !f.typed) || (f.ArrayFrame? && f.state == AType)
    ensures Same(Working(below, f, [Lead(ty)] + tail, out),
                 Working(below, if f.TopFrame? then TopFrame(true, ty)
              else f.(state := AElem, elemType := ty), tail, out))
  {
    hide Run, Last;
    var input := [Lead(ty)] + tail;
    TopOf(below, f, input, out);
    TopOf(below, f, tail, out);
    Unfolds(Working(below, f, input, out));
    assert input[1..] == tail;
  }

  lemma Delivered(below: seq<Frame>, f: Frame, r: Reply, input: seq<int>, out: seq<Reply>)
    requires f.ArrayFrame?
    ensures Same(Config(below + [f], input, Some(r), out),
                 if |f.elems| + 2 <= f.len then Working(below, f.(state := AType, elems := f.elems + [r]), input, out)
                   else Config(below, input, Some(Arr(f.elems + [r])), out))
  {
    hide Run, Last;
    var c := Config(below + [f], input, Some(r), out);
    TopOf(below, f, input, out);
    var g := f.(state := AType, elems := f.elems + [r]);
    assert SetTop(c, g).stack == below + [g];
    Unfolds(c);
  }

  /** Content of a tree, asked for by the builder on top. */
  lemma {:induction false} ContentRuns(c: Config, t: Tree, rest: seq<int>)
    requires c.ret.None? && Fits(t) && |c.stack| + Need(t) <= SLOTS && c.input == Body(t) + rest
    ensures Content(c, Kinds(t)).Go? && Same(Content(c, Kinds(t)).c, c.(input := rest, ret := Some(Val(t))))
    decreases t, if t.Array? then |t.trees| + 1 else 0
  {
    hide Run, Last, LineEnd, Append, IntValue, DecInt, Dec;
    match t
    case SimpleText(s) => TextRuns(c.stack, Simple, s, rest, c.out);
    case ErrorText(s) => TextRuns(c.stack, Error, s, rest, c.out);
    case Int(v) => IntRuns(c, v, rest);
    case BulkText(s) => BulkRuns(c.stack, s, rest, c.out);
    case NullBulk => NullRuns(c.stack, BulkFrame(false, 0, []), -1, rest, c.out);
    case NullArray => NullRuns(c.stack, ArrayFrame(ALen, 0, [], TInteger), -1, rest, c.out);
    case Array(ts) =>
      assert Body(t) + rest == Dec(|ts|) + CRLF + (PrintAll(ts) + rest);
      ArrayStarts(c.stack, |ts|, PrintAll(ts) + rest, c.out);
      if ts != [] {
        assert ts[..0] == [] && ts[0..] == ts;
        ElemsRun(c.stack, t, 0, TInteger, rest, c.out);
      } else {
        assert PrintAll(ts) + rest == rest;
      }
  }

  /** An array of which the first i elements are there. */
  lemma {:induction false} ElemsRun(below: seq<Frame>, t: Tree, i: int, ty: Type, rest: seq<int>, out: seq<Reply>)
    requires t.Array? && 0 <= i < |t.trees| && Fits(t) && |below| + Need(t) <= SLOTS
    ensures Same(Working(below, ArrayFrame(AType, |t.trees|, Vals(t.trees[..i]), ty),
                        PrintAll(t.trees[i..]) + rest, out),
                 Config(below, rest, Some(Val(t)), out))
    decreases t, |t.trees| - i
  {
    hide Run, Last, LineEnd, Append, IntValue, DecInt, Dec, Content, Body;
    var ts := t.trees;
    var u, tail := ts[i], PrintAll(ts[i + 1..]) + rest;
    assert ts[i..][0] == u && ts[i..][1..] == ts[i + 1..];
    assert PrintAll(ts[i..]) + rest == [Lead(Kinds(u))] + (Body(u) + tail);
    var f := ArrayFrame(AType, |ts|, Vals(ts[..i]), ty);
    var g := f.(state := AElem, elemType := Kinds(u));
    TypeTaken(below, f, Kinds(u), Body(u) + tail, out);
    TopOf(below, g, Body(u) + tail, out);
    Unfolds(Working(below, g, Body(u) + tail, out));
    AllFitAt(ts, i);
    NeedAt(ts, i);
    ContentRuns(Working(below, g, Body(u) + tail, out), u, tail);
    Delivered(below, g, Val(u), tail, out);
    assert ts[..i + 1][..i] == ts[..i] && ts[..i + 1][i] == u;
    if i + 1 < |ts| {
      ElemsRun(below, t, i + 1, Kinds(u), rest, out);
    } else {
      assert ts[..i + 1] == ts;
      assert ts[i + 1..] == [] && [] + rest == rest;
    }
  }

  /** An element that is there, and not the last. */
  lemma ElemRuns(below: seq<Frame>, t: Tree, i: int, y: seq<int>, out: seq<Reply>)
    requires t.Array? && 0 <= i < |t.trees| - 1 && Fits(t) && |below| + 1 + Need(t.trees[i]) <= SLOTS
    ensures var ts, ty := t.trees, Kinds(t.trees[i]);
            Same(Working(below, ArrayFrame(AElem, |ts|, Vals(ts[..i]), ty), Body(ts[i]) + y, out),
                 Working(below, ArrayFrame(AType, |ts|, Vals(ts[..i + 1]), ty), y, out))
  {
    hide Run, Last, Body, Content;
    var ts, u := t.trees, t.trees[i];
    var g := ArrayFrame(AElem, |ts|, Vals(ts[..i]), Kinds(u));
    AllFitAt(ts, i);
    TopOf(below, g, Body(u) + y, out);
    Unfolds(Working(below, g, Body(u) + y, out));
    ContentRuns(Working(below, g, Body(u) + y, out), u, y);
    Delivered(below, g, Val(u), y, out);
    assert ts[..i + 1][..i] == ts[..i] && ts[..i + 1][i] == u;
  }

  lemma {:induction false} AllFitAt(ts: seq<Tree>, i: int)
    requires AllFit(ts) && 0 <= i < |ts|
    ensures Fits(ts[i])
  {
    if i < |ts| - 1 { AllFitAt(ts[..|ts| - 1], i); }
  }

  lemma {:induction false} NeedAt(ts: seq<Tree>, i: int)
    requires 0 <= i < |ts|
    ensures Need(ts[i]) <= NeedAll(ts)
  {
    if i < |ts| - 1 { NeedAt(ts[..|ts| - 1], i); }
  }

  // ---------------------------------------------------------------- streams

  /** A parser between two replies: the main builder stays on the stack. */
  function Idle(input: seq<int>, out: seq<Reply>): Config { Config([TopFrame(false, TInteger)], input, None, out) }

  /** A new parser first pushes the main builder. */
  lemma StartIsIdle(input: seq<int>)
    ensures Same(Config([], input, None, []), Idle(input, []))
  {
    hide Run, Last;
    Unfolds(Config([], input, None, []));
    assert [] + [TopFrame(false, TInteger)] == [TopFrame(false, TInteger)];
  }

  lemma HandedOut(ty: Type, r: Reply, rest: seq<int>, out: seq<Reply>)
    ensures Same(Config([TopFrame(true, ty)], rest, Some(r), out), Idle(rest, out + [r]))
  {
    hide Run, Last;
    Unfolds(Config([TopFrame(true, ty)], rest, Some(r), out));
    Unfolds(Config([], rest, Some(r), out));
    Unfolds(Config([], rest, None, out + [r]));
    assert [TopFrame(true, ty)][..0] == [] && [] + [TopFrame(false, TInteger)] == [TopFrame(false, TInteger)];
  }

  /** A printed reply at the start of the input is handed out as it was, and exactly its bytes are
      used up. */
  lemma ReplyRuns(t: Tree, rest: seq<int>, out: seq<Reply>)
    requires Fits(t) && 1 + Need(t) <= 15
    ensures Same(Idle(Print(t) + rest, out), Idle(rest, out + [Val(t)]))
  {
    hide Run, Last, Body, Content;
    var f, g := TopFrame(false, TInteger), TopFrame(true, Kinds(t));
    var tail := Body(t) + rest;
    assert Print(t) + rest == [Lead(Kinds(t))] + tail;
    assert [] + [f] == [f] && [] + [g] == [g];
    TypeTaken([], f, Kinds(t), tail, out);
    Unfolds(Working([], g, tail, out));
    ContentRuns(Working([], g, tail, out), t, rest);
    HandedOut(Kinds(t), Val(t), rest, out);
  }

  lemma {:induction false} ValsCons(ts: seq<Tree>)
    requires ts != []
    ensures Vals(ts) == [Val(ts[0])] + Vals(ts[1..])
  {
    var n := |ts| - 1;
    if n > 0 {
      ValsCons(ts[..n]);
      assert ts[..n][1..] == ts[1..][..n - 1];
    }
  }

  lemma {:induction false} AllOfTail(ts: seq<Tree>)
    requires ts != [] && AllFit(ts)
    ensures AllFit(ts[1..]) && NeedAll(ts[1..]) <= NeedAll(ts)
  {
    var n := |ts| - 1;
    if n > 0 {
      AllOfTail(ts[..n]);
      assert ts[..n][1..] == ts[1..][..n - 1];
    }
  }

  lemma Rests(out: seq<Reply>)
    ensures Run(Idle([], out)) == Halt(Idle([], out), Premature) && Shape(Idle([], out))
  {
    hide Run;
    RunUnfolds(Idle([], out));
  }

  /** Printed replies come back, all of them and nothing else, and nothing is left over. */
  lemma {:induction false} StreamRuns(ts: seq<Tree>, out: seq<Reply>)
    requires AllFit(ts) && 1 + NeedAll(ts) <= 15
    ensures Run(Idle(PrintAll(ts), out)) == Halt(Idle([], out + Vals(ts)), Premature)
    decreases |ts|
  {
    hide Run, Idle;
    if ts == [] {
      Rests(out);
      assert out + [] == out;
    } else {
      AllFitAt(ts, 0);
      NeedAt(ts, 0);
      AllOfTail(ts);
      ValsCons(ts);
      ReplyRuns(ts[0], PrintAll(ts[1..]), out);
      StreamRuns(ts[1..], out + [Val(ts[0])]);
      assert out + [Val(ts[0])] + Vals(ts[1..]) == out + Vals(ts);
    }
  }

  // ---------------------------------------------------------------- malformed replies

  /** A bulk string is handed on exactly if CR and LF follow its bytes; any other two bytes there are
      an error, and nothing is handed out. */
  lemma TrailerChecked(below: seq<Frame>, s: seq<int>, t: seq<int>, rest: seq<int>, out: seq<Reply>)
    requires |s| + 3 < 0x1_0000_0000 && |t| == 2
    ensures var r := Run(Working(below, BulkFrame(false, 0, []), Dec(|s|) + [13, 10] + s + t + rest, out));
            if t == [13, 10] then r == Run(Config(below, rest, Some(Text(Bulk, [s], |s|)), out))
            else r.why == BadBulk && r.c.out == out
  {
    hide Run, Last, BulkData, Dec;
    var f, tail := BulkFrame(true, |s|, []), s + t + rest;
    assert Dec(|s|) + [13, 10] + s + t + rest == Dec(|s|) + CRLF + tail;
    BulkStarts(below, |s|, tail, out);
    TopOf(below, f, tail, out);
    Unfolds(Working(below, f, tail, out));
    BulkIsSeen(Working(below, f, tail, out));
    assert [] + tail == tail;
    assert tail[..|s|] == s && tail[|s|..|s| + 2] == t && tail[|s| + 2..] == rest;
  }

  /** Lengths are cut to 32 bits; a bulk string so long that its length and three wrap is an error. */
  lemma LengthChecked(below: seq<Frame>, n: int, tail: seq<int>, out: seq<Reply>)
    requires 0 <= n < 0x8000_0000_0000_0000
    ensures var c := Working(below, BulkFrame(false, 0, []), Dec(n) + [13, 10] + tail, out);
            if n % 0x1_0000_0000 + 3 < 0x1_0000_0000
            then Same(c, Working(below, BulkFrame(true, n % 0x1_0000_0000, []), tail, out))
            else Run(c).why == TooBig && Run(c).c.out == out
    ensures n > 0 ==> Same(Working(below, ArrayFrame(ALen, 0, [], TInteger), Dec(n) + [13, 10] + tail, out),
                           Working(below, ArrayFrame(AType, n % 0x1_0000_0000, [], TInteger), tail, out))
  {
    hide LineEnd, Run, Last, IntValue, Dec;
    var f, g, input := BulkFrame(false, 0, []), ArrayFrame(ALen, 0, [], TInteger), Dec(n) + CRLF + tail;
    NoReturnInDec(n);
    ReadLine(Dec(n), tail);
    IntValueOfDec(n);
    TopOf(below, f, input, out);
    TopOf(below, f, tail, out);
    Unfolds(Working(below, f, input, out));
    TopOf(below, g, input, out);
    TopOf(below, g, tail, out);
    Unfolds(Working(below, g, input, out));
  }

  /** A reply or element that begins with none of the bytes + - : $ * is an error. */
  lemma LeadingChecked(below: seq<Frame>, f: Frame, b: int, rest: seq<int>, out: seq<Reply>)
    requires (f.TopFrame? && !f.typed) || (f.ArrayFrame? && f.state == AType)
    ensures var c := Working(below, f, [b] + rest, out);
            Run(c) == Halt(c, BadLeading) <==> b != 43 && b != 45 && b != 58 && b != 36 && b != 42
  {
    hide Run, Last;
    var c := Working(below, f, [b] + rest, out);
    TopOf(below, f, [b] + rest, out);
    Unfolds(c);
    if TypeOf(b).Some? {
      TypeGoesOn(c);
    }
  }

  /** Where a leading byte was taken the parser does not come back to it. */
  lemma TypeGoesOn(c: Config)
    requires Step(c).Go? && |Step(c).c.input| < |c.input|
    ensures Run(c) != Halt(c, BadLeading)
  {
    hide Run, Step;
    RunUnfolds(c);
    InputShrinks(Step(c).c);
  }

  lemma {:induction false} InputShrinks(c: Config)
    ensures |Run(c).c.input| <= |c.input|
    decreases |c.input|, Rank(c)
  {
    hide Run, Step, Rank;
    StepDecreases(c);
    RunUnfolds(c);
    HaltShrinks(c);
    if Step(c).Go? { InputShrinks(Step(c).c); }
  }

  lemma HaltShrinks(c: Config)
    ensures Step(c).Halt? ==> |Step(c).c.input| <= |c.input|
  {
    hide LineEnd, IntValue, Append, TypeOf;
    LineEndRange(c.input);
  }

  // ---------------------------------------------------------------- too deep

  /** Content that needs more builders than there are. */
  lemma {:induction false} DeepContent(c: Config, t: Tree, rest: seq<int>)
    requires c.ret.None? && c.stack != [] && Waiting(Top(c)) && WaitsFor(Top(c)) == Kinds(t)
    requires Fits(t) && |c.stack| <= SLOTS < |c.stack| + Need(t) && c.input == Body(t) + rest
    ensures Run(c).why == TooDeep && Run(c).c.out == c.out
    decreases t, if t.Array? then |t.trees| + 1 else 0
  {
    hide Run, Last, LineEnd, Append, IntValue, DecInt, Dec;
    Unfolds(c);
    if t.Array? && |c.stack| < SLOTS {
      var ts := t.trees;
      assert c.input == Dec(|ts|) + CRLF + (PrintAll(ts) + rest);
      ArrayStarts(c.stack, |ts|, PrintAll(ts) + rest, c.out);
      var j := DeepestOf(ts);
      assert ts[..0] == [] && ts[0..] == ts;
      DeepElems(c.stack, t, 0, j, TInteger, rest, c.out);
    }
  }

  /** The first i elements are there, and element j is too deep. */
  lemma {:induction false} DeepElems(below: seq<Frame>, t: Tree, i: int, j: int, ty: Type, rest: seq<int>,
                                     out: seq<Reply>)
    requires t.Array? && 0 <= i <= j < |t.trees| && Fits(t) && |below| + 1 <= SLOTS < |below| + 1 + Need(t.trees[j])
    ensures var r := Run(Working(below, ArrayFrame(AType, |t.trees|, Vals(t.trees[..i]), ty),
                                 PrintAll(t.trees[i..]) + rest, out));
            r.why == TooDeep && r.c.out == out
    decreases t, |t.trees| - i
  {
    hide Run, Last, LineEnd, Append, IntValue, DecInt, Dec, Content, Body;
    var ts := t.trees;
    var u, tail := ts[i], PrintAll(ts[i + 1..]) + rest;
    assert ts[i..][0] == u && ts[i..][1..] == ts[i + 1..];
    assert PrintAll(ts[i..]) + rest == [Lead(Kinds(u))] + (Body(u) + tail);
    var f := ArrayFrame(AType, |ts|, Vals(ts[..i]), ty);
    var g := f.(state := AElem, elemType := Kinds(u));
    TypeTaken(below, f, Kinds(u), Body(u) + tail, out);
    TopOf(below, g, Body(u) + tail, out);
    AllFitAt(ts, i);
    if |below| + 1 + Need(u) > SLOTS {
      DeepContent(Working(below, g, Body(u) + tail, out), u, tail);
    } else {
      ElemRuns(below, t, i, tail, out);
      DeepElems(below, t, i + 1, j, Kinds(u), rest, out);
    }
  }

  function DeepestOf(ts: seq<Tree>): (j: int)
    requires ts != []
    ensures 0 <= j < |ts| && Need(ts[j]) == NeedAll(ts)
  {
    var n := |ts| - 1;
    if n == 0 || NeedAll(ts[..n]) <= Need(ts[n]) then n else DeepestOf(ts[..n])
  }

  lemma {:induction false} DeepStream(ts: seq<Tree>, out: seq<Reply>)
    requires AllFit(ts) && 1 + NeedAll(ts) > SLOTS
    ensures Run(Idle(PrintAll(ts), out)).why == TooDeep
    decreases |ts|
  {
    hide Run, Last, Body, Content;
    var u, tail := ts[0], PrintAll(ts[1..]);
    AllFitAt(ts, 0);
    AllOfTail(ts);
    NeedOfTail(ts);
    if 1 + Need(u) > SLOTS {
      var f, g := TopFrame(false, TInteger), TopFrame(true, Kinds(u));
      assert [] + [f] == [f] && [] + [g] == [g];
      assert PrintAll(ts) == [Lead(Kinds(u))] + (Body(u) + tail);
      TypeTaken([], f, Kinds(u), Body(u) + tail, out);
      DeepContent(Working([], g, Body(u) + tail, out), u, tail);
    } else {
      ReplyRuns(u, tail, out);
      DeepStream(ts[1..], out + [Val(u)]);
    }
  }

  lemma {:induction false} NeedOfTail(ts: seq<Tree>)
    requires ts != []
    ensures NeedAll(ts) == if Need(ts[0]) > NeedAll(ts[1..]) then Need(ts[0]) else NeedAll(ts[1..])
  {
    var n := |ts| - 1;
    if n > 0 {
      NeedOfTail(ts[..n]);
      assert ts[..n][1..] == ts[1..][..n - 1];
    }
  }

  /** Printed replies come back exactly if none of them needs more than the fifteen builders that
      there is room for: a main builder, one for each array around, and one for a text. */
  lemma DepthIsExact(ts: seq<Tree>, out: seq<Reply>)
    requires AllFit(ts)
    ensures Run(Idle(PrintAll(ts), out)) == Halt(Idle([], out + Vals(ts)), Premature) <==> 1 + NeedAll(ts) <= 15
    ensures Run(Idle(PrintAll(ts), out)).why == (if 1 + NeedAll(ts) <= 15 then Premature else TooDeep)
  {
    hide Run;
    if 1 + NeedAll(ts) <= 15 { StreamRuns(ts, out); } else { DeepStream(ts, out); }
  }

  lemma {:induction false} ValInjective(t: Tree, u: Tree)
    requires Val(t) == Val(u)
    ensures t == u
    decreases t, 0
  {
    match t {
      case SimpleText(s) => assert [s][0] == s;
      case ErrorText(s) => assert [s][0] == s;
      case BulkText(s) => assert [s][0] == s;
      case Array(ts) => ValsInjective(ts, u.trees);
      case _ =>
    }
  }

  lemma {:induction false} ValsInjective(ts: seq<Tree>, us: seq<Tree>)
    requires Vals(ts) == Vals(us)
    ensures ts == us
    decreases ts, 1
  {
    if ts != [] {
      var n := |ts| - 1;
      assert Vals(ts)[..n] == Vals(ts[..n]) && Vals(us)[..n] == Vals(us[..n]);
      ValsInjective(ts[..n], us[..n]);
      ValInjective(ts[n], us[n]);
      assert ts == ts[..n] + [ts[n]] && us == us[..n] + [us[n]];
    }
  }

  /** The notation is unambiguous. */
  lemma PrintInjective(ts: seq<Tree>, us: seq<Tree>)
    requires AllFit(ts) && AllFit(us) && 1 + NeedAll(ts) <= 15 && 1 + NeedAll(us) <= 15
    requires PrintAll(ts) == PrintAll(us)
    ensures ts == us
  {
    hide Run;
    StreamRuns(ts, []);
    StreamRuns(us, []);
    assert [] + Vals(ts) == Vals(ts) && [] + Vals(us) == Vals(us);
    ValsInjective(ts, us);
  }

  // ---------------------------------------------------------------- commands

  function Bulks(pieces: seq<seq<int>>): (ts: seq<Tree>)
    ensures |ts| == |pieces|
  {
    if pieces == [] then [] else Bulks(pieces[..|pieces| - 1]) + [BulkText(pieces[|pieces| - 1])]
  }

  function Command(pieces: seq<seq<int>>): Tree { Array(Bulks(pieces)) }

  lemma {:induction false} PrintSnoc(ts: seq<Tree>, t: Tree)
    ensures PrintAll(ts + [t]) == PrintAll(ts) + Print(t)
    decreases |ts|
  {
    hide Print;
    if ts == [] {
      assert ts + [t] == [t] && [t][1..] == [];
      assert Print(t) + [] == Print(t);
    } else {
      PrintSnoc(ts[1..], t);
      assert (ts + [t])[1..] == ts[1..] + [t];
    }
  }

  /** CRedisCommandBuilder::BuildCommand. */
  method BuildCommand(pieces: seq<seq<int>>) returns (single: seq<int>)
    ensures single == Print(Command(pieces))
  {
    hide Dec;
    single := [42] + Dec(|pieces|) + [13, 10];
    ghost var head := single;
    for i := 0 to |pieces|
      invariant single == head + PrintAll(Bulks(pieces[..i]))
    {
      var piece := pieces[i];
      assert pieces[..i + 1][..i] == pieces[..i];
      PrintSnoc(Bulks(pieces[..i]), BulkText(piece));
      single := single + [36] + Dec(|piece|) + [13, 10] + piece + [13, 10];
    }
    assert pieces[..|pieces|] == pieces;
  }

  /** CRedisCommandBuilder::Build; `all` and `builtNum` are updated in place in the source. */
  method Build(pieces: seq<seq<int>>, all: seq<int>, builtNum: int)
    returns (single: seq<int>, all': seq<int>, builtNum': int)
    ensures single == Print(Command(pieces)) && all' == all + single && builtNum' == builtNum + 1
  {
    single := BuildCommand(pieces);
    all', builtNum' := all + single, builtNum + 1;
  }

  /** The bytes of a client that builds all these commands, and its count. */
  method BuildAll(commands: seq<seq<seq<int>>>) returns (all: seq<int>, builtNum: int)
    ensures all == PrintAll(Commands(commands)) && builtNum == |commands|
  {
    all, builtNum := [], 0;
    for i := 0 to |commands|
      invariant all == PrintAll(Commands(commands[..i])) && builtNum == i
    {
      assert commands[..i + 1][..i] == commands[..i];
      PrintSnoc(Commands(commands[..i]), Command(commands[i]));
      var single;
      single, all, builtNum := Build(commands[i], all, builtNum);
    }
    assert commands[..|commands|] == commands;
  }

  function Commands(commands: seq<seq<seq<int>>>): (ts: seq<Tree>)
    ensures |ts| == |commands|
  {
    if commands == [] then [] else Commands(commands[..|commands| - 1]) + [Command(commands[|commands| - 1])]
  }

  /** Commands whose counts and sizes a server of 32-bit lengths can hold. */
  predicate CommandFits(pieces: seq<seq<int>>) {
    |pieces| < U32 && forall i | 0 <= i < |pieces| :: |pieces[i]| + 3 < U32
  }

  lemma FitSnoc(ts: seq<Tree>, t: Tree)
    requires AllFit(ts) && Fits(t)
    ensures AllFit(ts + [t]) && NeedAll(ts + [t]) == if NeedAll(ts) > Need(t) then NeedAll(ts) else Need(t)
  {
    assert (ts + [t])[..|ts|] == ts;
  }

  lemma {:induction false} BulksFit(pieces: seq<seq<int>>)
    requires forall i | 0 <= i < |pieces| :: |pieces[i]| + 3 < U32
    ensures AllFit(Bulks(pieces)) && NeedAll(Bulks(pieces)) <= 1
  {
    if pieces != [] {
      var n := |pieces| - 1;
      BulksFit(pieces[..n]);
      FitSnoc(Bulks(pieces[..n]), BulkText(pieces[n]));
    }
  }

  lemma {:induction false} BulkAt(pieces: seq<seq<int>>, i: int)
    requires 0 <= i < |pieces|
    ensures Vals(Bulks(pieces))[i] == Text(Bulk, [pieces[i]], |pieces[i]|)
  {
    var n := |pieces| - 1;
    assert Bulks(pieces)[..n] == Bulks(pieces[..n]);
    if i < n { BulkAt(pieces[..n], i); }
  }

  lemma {:induction false} CommandsFit(commands: seq<seq<seq<int>>>)
    requires forall i | 0 <= i < |commands| :: CommandFits(commands[i])
    ensures AllFit(Commands(commands)) && NeedAll(Commands(commands)) <= 2
  {
    hide CommandFits;
    if commands != [] {
      var n := |commands| - 1;
      CommandsFit(commands[..n]);
      CommandFitsTree(commands[n]);
      FitSnoc(Commands(commands[..n]), Command(commands[n]));
    }
  }

  lemma CommandFitsTree(pieces: seq<seq<int>>)
    requires CommandFits(pieces)
    ensures Fits(Command(pieces)) && Need(Command(pieces)) <= 2
  {
    BulksFit(pieces);
  }

  lemma {:induction false} CommandAt(commands: seq<seq<seq<int>>>, i: int)
    requires 0 <= i < |commands|
    ensures Vals(Commands(commands))[i] == Arr(Vals(Bulks(commands[i])))
  {
    var n := |commands| - 1;
    assert Commands(commands)[..n] == Commands(commands[..n]);
    if i < n { CommandAt(commands[..n], i); }
  }

  predicate IsCommand(r: Reply, pieces: seq<seq<int>>) {
    && r.Arr? && |r.elems| == |pieces|
    && forall i | 0 <= i < |pieces| :: r.elems[i] == Text(Bulk, [pieces[i]], |pieces[i]|)
  }

  lemma CommandIsCommand(pieces: seq<seq<int>>)
    ensures IsCommand(Arr(Vals(Bulks(pieces))), pieces)
  {
    forall i | 0 <= i < |pieces| ensures Vals(Bulks(pieces))[i] == Text(Bulk, [pieces[i]], |pieces[i]|) {
      BulkAt(pieces, i);
    }
  }
}
