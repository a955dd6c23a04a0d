/** The resumable reply parser of src/base/reply_parser as a machine: a stack of builders, each
    with the reply it is filling, working through the bytes received so far.

    The source is a set of mutually recursive functions that return when the input runs out and
    find their way back through the builder stack; `RespParser` models them in that form and
    proves them equal to this machine.  Here the machine's own laws are proved: it terminates, and
    its builder stack keeps its shape. */
module RespMachine {
  import opened Wrappers
  import opened StringSearch

  // ---------------------------------------------------------------- data

  datatype Kind = Simple | Error | Bulk

  /** A finished reply.  The content of a text lies in a chain of buffers; -1 stands for a byte the
      parser counted but never wrote. */
  datatype Reply =
    | Text(kind: Kind, bufs: seq<seq<int>>, bytes: int)
    | Number(v: int)
    | Null(ofArray: bool)
    | Arr(elems: seq<Reply>)

  datatype Type = TSimple | TError | TInteger | TBulk | TArray

  datatype ArrayState = ALen | AType | AElem

  /** A builder on the stack together with the reply it fills. */
  datatype Frame =
    | TopFrame(typed: bool, ty: Type)
    | ArrayFrame(state: ArrayState, len: int, elems: seq<Reply>, elemType: Type)
    | BulkFrame(sized: bool, storeLen: int, got: seq<int>)
    | SimpleFrame(kind: Kind, started: bool, storeLen: int, bufs: seq<seq<int>>)

  /** `ret` holds a reply just finished, on its way to the builder below; `out` lists the replies
      handed to the callback. */
  datatype Config = Config(stack: seq<Frame>, input: seq<int>, ret: Option<Reply>, out: seq<Reply>)

  /** Premature: more input needed.  BadLeading, BadBulk: malformed input.  TooDeep: all usable
      builder slots are taken; TooBig: a length that overflows the source's 32-bit arithmetic.  The
      source gives no meaning to the last two. */
  datatype Stop = Premature | BadLeading | BadBulk | TooDeep | TooBig

  datatype Next = Go(c: Config) | Halt(c: Config, why: Stop)

  const SLOTS: int := 15
  const BUF_SIZE: int := 4096
  const CRLF: seq<int> := [13, 10]

  // ---------------------------------------------------------------- reading

  /** Two's complement 64-bit arithmetic. */
  function Wrap64(x: int): int {
    (x + 0x8000_0000_0000_0000) % 0x1_0000_0000_0000_0000 - 0x8000_0000_0000_0000
  }

  /** Digit accumulation: a minus sign anywhere is skipped, any other byte counts as a digit. */
  function Digits(s: seq<int>): int {
    if s == [] then 0
    else
      var v, b := Digits(s[..|s| - 1]), s[|s| - 1];
      if b == 45 then v else Wrap64(Wrap64(v * 10) + (Signed(b) - 48))
  }

  function IntValue(s: seq<int>): int { if 45 in s then Wrap64(Digits(s) * -1) else Digits(s) }

  /** The line end as bip_buf_find_str sees it, or -1. */
  function LineEnd(input: seq<int>): int { if |input| < 2 then -1 else Find(input, CRLF) }

  function TypeOf(b: int): Option<Type> {
    if b == 43 then Some(TSimple) else if b == 45 then Some(TError) else if b == 58 then Some(TInteger)
    else if b == 36 then Some(TBulk) else if b == 42 then Some(TArray) else None
  }

  /** A buffer of the chain after n bytes of p are copied to its start and its end moves by n. */
  function Overlay(data: seq<int>, p: seq<int>, n: int): seq<int>
    requires 0 <= n <= |p|
  {
    p[..n] + (data + seq(n, _ => -1))[n..]
  }

  function Min(a: int, b: int): int { if a < b then a else b }

  /** The copying loop of a simple string: every piece starts again at the first byte of p. */
  function Append(bufs: seq<seq<int>>, p: seq<int>, remain: int): seq<seq<int>>
    requires 0 <= remain <= |p|
    decreases remain, if bufs != [] && |bufs[|bufs| - 1]| < BUF_SIZE then 0 else 1
  {
    if remain == 0 then bufs
    else if bufs == [] || |bufs[|bufs| - 1]| >= BUF_SIZE then Append(bufs + [[]], p, remain)
    else
      var last := |bufs| - 1;
      var n := Min(BUF_SIZE - |bufs[last]|, remain);
      Append(bufs[last := Overlay(bufs[last], p, n)], p, remain - n)
  }

  // ---------------------------------------------------------------- steps

  function Top(c: Config): Frame
    requires c.stack != []
  {
    c.stack[|c.stack| - 1]
  }

  function SetTop(c: Config, f: Frame): Config
    requires c.stack != []
  {
    c.(stack := c.stack[|c.stack| - 1 := f])
  }

  /** The top builder is done: pop it and hand its reply down. */
  function Return(c: Config, r: Reply): Config
    requires c.stack != []
  {
    c.(stack := c.stack[..|c.stack| - 1], ret := Some(r))
  }

  function Take(c: Config, n: int): Config
    requires 0 <= n <= |c.input|
  {
    c.(input := c.input[n..])
  }

  function Push(c: Config, f: Frame): Next {
    if |c.stack| >= SLOTS then Halt(c, TooDeep) else Go(c.(stack := c.stack + [f]))
  }

  /** The builder for content of a type; integers have none. */
  function NewFrame(ty: Type): Frame
    requires ty != TInteger
  {
    match ty
    case TSimple => SimpleFrame(Simple, false, 0, [])
    case TError => SimpleFrame(Error, false, 0, [])
    case TBulk => BulkFrame(false, 0, [])
    case TArray => ArrayFrame(ALen, 0, [], TInteger)
  }

  lemma LineEndRange(input: seq<int>)
    ensures LineEnd(input) == -1 || (0 <= LineEnd(input) && LineEnd(input) + 2 <= |input|)
  {
  }

  /** Content of type ty, asked for by the top builder. */
  function Content(c: Config, ty: Type): Next {
    if ty == TInteger then
      LineEndRange(c.input);
      var i := LineEnd(c.input);
      if i < 0 then Halt(c, Premature)
      else Go(Take(c, i + 2).(ret := Some(Number(IntValue(c.input[..i])))))
    else Push(c, NewFrame(ty))
  }

  function TakeType(c: Config): Next
    requires c.stack != [] && (Top(c).TopFrame? || Top(c).ArrayFrame?)
  {
    if c.input == [] then Halt(c, Premature)
    else match TypeOf(c.input[0])
      case None => Halt(c, BadLeading)
      case Some(ty) =>
        var f := Top(c);
        Go(SetTop(Take(c, 1), if f.TopFrame? then TopFrame(true, ty) else f.(state := AElem, elemType := ty)))
  }

  function ArrayLen(c: Config): Next
    requires c.stack != [] && Top(c).ArrayFrame?
  {
    LineEndRange(c.input);
    var i := LineEnd(c.input);
    if i < 0 then Halt(c, Premature)
    else
      var len, c1 := IntValue(c.input[..i]), Take(c, i + 2);
      if len > 0 then Go(SetTop(c1, Top(c).(state := AType, len := len % U32)))
      else Go(Return(c1, if len < 0 then Null(true) else Arr([])))
  }

  function BulkLen(c: Config): Next
    requires c.stack != []
  {
    LineEndRange(c.input);
    var i := LineEnd(c.input);
    if i < 0 then Halt(c, Premature)
    else
      var len, c1 := IntValue(c.input[..i]), Take(c, i + 2);
      if len < 0 then Go(Return(c1, Null(false)))
      else if len % U32 + 3 >= U32 then Halt(c1, TooBig)
      else Go(SetTop(c1, BulkFrame(true, len % U32, [])))
  }

  /** A bulk string has got less than its payload and trailer, an array of unknown length is
      empty, and simple strings are not bulk strings. */
  predicate FrameOk(f: Frame) {
    && (f.BulkFrame? && f.sized ==> 0 <= f.storeLen && |f.got| < f.storeLen + 2)
    && (f.ArrayFrame? && f.state == ALen ==> f.elems == [])
    && (f.SimpleFrame? ==> f.kind != Bulk && 0 <= f.storeLen < U32)
  }

  function BulkData(c: Config): Next
    requires c.stack != [] && Top(c).BulkFrame?
  {
    var f := Top(c);
    var want := f.storeLen + 2 - |f.got|;
    if f.storeLen < 0 || want <= 0 then Halt(c, BadBulk)   // never so, see FrameOk
    else if |c.input| < want then Halt(SetTop(c, f.(got := f.got + c.input)).(input := []), Premature)
    else
      var all := f.got + c.input[..want];
      if all[f.storeLen..] != CRLF then Halt(SetTop(c, f.(got := all)), BadBulk)
      else Go(Return(Take(c, want), Text(Bulk, [all[..f.storeLen]], f.storeLen)))
  }

  function SimpleData(c: Config): Next
    requires c.stack != [] && Top(c).SimpleFrame?
  {
    LineEndRange(c.input);
    var f, i, n := Top(c), LineEnd(c.input), |c.input|;
    if n < 2 then Halt(c, Premature)
    else if i < 0 then
      var k := if c.input[n - 1] == 13 then n - 1 else n;
      Halt(SetTop(Take(c, k), f.(storeLen := (f.storeLen + k) % U32, bufs := Append(f.bufs, c.input, k))), Premature)
    else
      Go(Return(Take(c, i + 2), Text(f.kind, Append(f.bufs, c.input, i), (f.storeLen + i) % U32)))
  }

  /** A finished reply reaches the builder below, or the callback. */
  function Deliver(c: Config): Config
    requires c.ret.Some?
  {
    if c.stack == [] then c.(ret := None, out := c.out + [c.ret.value])
    else
      var f := Top(c);
      if f.ArrayFrame? then
        var elems := f.elems + [c.ret.value];
        if |elems| + 1 <= f.len then SetTop(c, f.(state := AType, elems := elems)).(ret := None)
        else Return(c, Arr(elems))
      else c.(stack := c.stack[..|c.stack| - 1])
  }

  function Step(c: Config): Next {
    if c.ret.Some? then Go(Deliver(c))
    else if c.stack == [] then Push(c, TopFrame(false, TInteger))
    else
      match Top(c)
      case TopFrame(typed, ty) => if typed then Content(c, ty) else TakeType(c)
      case ArrayFrame(state, _, _, ty) =>
        (match state case ALen => ArrayLen(c) case AType => TakeType(c) case AElem => Content(c, ty))
      case BulkFrame(sized, _, _) => if sized then BulkData(c) else BulkLen(c)
      case SimpleFrame(kind, started, _, _) =>
        if started then SimpleData(c) else Go(SetTop(c, SimpleFrame(kind, true, 0, [[]])))
  }

  /** Decreases in every step that takes no input. */
  function Rank(c: Config): nat {
    if c.ret.Some? then 100 + |c.stack|
    else if c.stack == [] then 50
    else match Top(c)
      case TopFrame(typed, _) => if typed then 10 else 1
      case ArrayFrame(state, _, _, _) => if state == AElem then 10 else 1
      case BulkFrame(_, _, _) => 1
      case SimpleFrame(_, started, _, _) => if started then 1 else 2
  }

  predicate Before(c: Config, c': Config) {
    |c'.input| < |c.input| || (|c'.input| == |c.input| && Rank(c') < Rank(c))
  }

  lemma ContentDecreases(c: Config, ty: Type)
    requires c.stack != [] && c.ret.None? && Rank(c) == 10
    ensures Content(c, ty).Go? ==> Before(c, Content(c, ty).c)
  {
    hide IntValue;
  }

  lemma ReadDecreases(c: Config)
    requires c.stack != [] && c.ret.None?
    ensures Top(c).TopFrame? || Top(c).ArrayFrame? ==> TakeType(c).Go? ==> Before(c, TakeType(c).c)
    ensures Top(c).ArrayFrame? ==> ArrayLen(c).Go? ==> Before(c, ArrayLen(c).c)
    ensures BulkLen(c).Go? ==> Before(c, BulkLen(c).c)
  {
    hide IntValue, TypeOf;
  }

  lemma DataDecreases(c: Config)
    requires c.stack != [] && c.ret.None?
    ensures Top(c).BulkFrame? ==> BulkData(c).Go? ==> Before(c, BulkData(c).c)
    ensures Top(c).SimpleFrame? ==> SimpleData(c).Go? ==> Before(c, SimpleData(c).c)
  {
    hide Append;
  }

  lemma DeliverDecreases(c: Config)
    requires c.ret.Some?
    ensures Before(c, Deliver(c))
  {
  }

  lemma StepDecreases(c: Config)
    ensures Step(c).Go? ==> Before(c, Step(c).c)
  {
    hide Content, TakeType, ArrayLen, BulkLen, BulkData, SimpleData, Deliver;
    if c.ret.Some? {
      DeliverDecreases(c);
    } else if c.stack != [] {
      ReadDecreases(c);
      DataDecreases(c);
      match Top(c)
      case TopFrame(typed, ty) => if typed { ContentDecreases(c, ty); }
      case ArrayFrame(state, _, _, ty) => if state == AElem { ContentDecreases(c, ty); }
      case BulkFrame(_, _, _) =>
      case SimpleFrame(_, _, _, _) =>
    }
  }

  /** Work through the input until a builder at depth d has finished, or no step is possible. */
  function RunTo(c: Config, d: int): (r: Next)
    ensures d < 0 ==> r.Halt?
    ensures r.Go? ==> r.c.ret.Some? && |r.c.stack| <= d
    decreases |c.input|, Rank(c)
  {
    if c.ret.Some? && |c.stack| <= d then Go(c)
    else
      StepDecreases(c);
      match Step(c)
      case Halt(c', why) => Halt(c', why)
      case Go(c') => RunTo(c', d)
  }

  /** redis_reply_parse_once: until the input is used up or malformed. */
  function Run(c: Config): (r: Next)
    ensures r.Halt?
  {
    RunTo(c, -1)
  }

  // ---------------------------------------------------------------- shape

  /** The content builder g was asked for by f. */
  predicate Asked(f: Frame, g: Frame) {
    Waiting(f) && WaitsFor(f) != TInteger && SameBuilder(WaitsFor(f), g)
  }

  predicate SameBuilder(ty: Type, g: Frame) {
    match ty
    case TSimple => g.SimpleFrame? && g.kind == Simple
    case TError => g.SimpleFrame? && g.kind == Error
    case TInteger => false
    case TBulk => g.BulkFrame?
    case TArray => g.ArrayFrame?
  }

  /** A builder that has read a type and waits for content of it. */
  predicate Waiting(f: Frame) { (f.TopFrame? && f.typed) || (f.ArrayFrame? && f.state == AElem) }

  function WaitsFor(f: Frame): Type
    requires f.TopFrame? || f.ArrayFrame?
  {
    if f.TopFrame? then f.ty else f.elemType
  }

  /** The builders of a parser: the main builder first, and every other one asked for by the one
      below; no more than there is room for. */
  predicate Shape(c: Config) {
    && |c.stack| <= SLOTS
    && (forall i | 0 <= i < |c.stack| :: FrameOk(c.stack[i]) && (c.stack[i].TopFrame? <==> i == 0))
    && (forall i | 0 < i < |c.stack| :: Asked(c.stack[i - 1], c.stack[i]))
    && (c.stack != [] && c.ret.Some? ==> Waiting(Top(c)))
  }

  lemma ContentKeepsShape(c: Config, ty: Type)
    requires Shape(c) && c.stack != [] && c.ret.None? && Waiting(Top(c)) && ty == WaitsFor(Top(c))
    ensures Shape(Content(c, ty).c)
  {
    hide LineEnd, IntValue;
  }

  lemma BulkDataKeepsShape(c: Config)
    requires Shape(c) && c.stack != [] && Top(c).BulkFrame? && c.ret.None?
    ensures BulkData(c).Go? || BulkData(c).why != BadBulk ==> Shape(BulkData(c).c)
  {
  }

  lemma SimpleDataKeepsShape(c: Config)
    requires Shape(c) && c.stack != [] && Top(c).SimpleFrame? && c.ret.None?
    ensures Shape(SimpleData(c).c)
  {
    hide LineEnd, Append;
  }

  lemma LenKeepsShape(c: Config)
    requires Shape(c) && c.stack != [] && c.ret.None?
    ensures Top(c).ArrayFrame? ==> Shape(ArrayLen(c).c)
    ensures Top(c).BulkFrame? ==> Shape(BulkLen(c).c)
  {
    hide LineEnd, IntValue;
  }

  lemma TypeKeepsShape(c: Config)
    requires Shape(c) && c.stack != [] && c.ret.None? && (Top(c).TopFrame? || Top(c).ArrayFrame?) && !Waiting(Top(c))
    ensures Shape(TakeType(c).c)
  {
    hide TypeOf;
  }

  lemma DeliverKeepsShape(c: Config)
    requires Shape(c) && c.ret.Some?
    ensures Shape(Deliver(c))
  {
  }

  /** Every step keeps the shape of the builder stack, unless it meets a bulk string that does not
      end where it should. */
  lemma StepKeepsShape(c: Config)
    requires Shape(c)
    ensures Step(c).Go? || Step(c).why != BadBulk ==> Shape(Step(c).c)
  {
    hide Content, TakeType, ArrayLen, BulkLen, BulkData, SimpleData, Deliver;
    if c.ret.Some? {
      DeliverKeepsShape(c);
    } else if c.stack != [] {
      LenKeepsShape(c);
      match Top(c)
      case TopFrame(typed, ty) => if typed { ContentKeepsShape(c, ty); } else { TypeKeepsShape(c); }
      case ArrayFrame(state, _, _, ty) => if state == AElem { ContentKeepsShape(c, ty); } else { TypeKeepsShape(c); }
      case BulkFrame(_, _, _) => BulkDataKeepsShape(c);
      case SimpleFrame(_, _, _, _) => SimpleDataKeepsShape(c);
    }
  }
}
