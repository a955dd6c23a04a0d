/** The resumable decoder of DUMP payloads in src/base/rdb_parser as a machine: a stack of at most
    four builders working through the bytes received so far.  `RdbParser` proves the source's own
    form, one function per builder, equal to it. */
module RdbMachine {
  import opened Wrappers
  import opened Ziplist
  import Lzf

  // ---------------------------------------------------------------- data

  /** A string of the dump; encoded integers are kept as integers.  -1 stands for a byte that is
      counted but was never written. */
  datatype Value = Bytes(s: seq<int>) | Int(v: int)

  datatype Object = StrObject(v: Value) | ListObject(vals: seq<Value>) | HashObject(kvs: seq<(Value, Value)>)

  datatype StrState = StrLen | StrEnc | StrPlain
  datatype LzfState = LzfLen | LzfRaw | LzfData
  datatype HashState = HashLen | HashKey | HashVal

  datatype Frame =
    | DumpFrame(typed: bool, ty: int)
    | StrFrame(strState: StrState, storeLen: int, got: seq<int>)
    | LzfFrame(lzfState: LzfState, cLen: int, rawLen: int, got: seq<int>)
    | ListFrame(sized: bool, storeLen: int, vals: seq<Value>)
    | HashFrame(hashState: HashState, storeLen: int, key: Value, kvs: seq<(Value, Value)>)

  datatype Ret = Nothing | RetValue(v: Value) | RetObject(o: Object)

  /** `out` lists the objects handed to the callback. */
  datatype Config = Config(stack: seq<Frame>, input: seq<int>, ret: Ret, out: seq<Object>)

  /** Forever: a turn of the source's loop asks for another and changes nothing.  Outside: the source goes on with
      memory it does not own, or the type is not part of this model. */
  datatype Stop = Premature | BadType | BadEncoding | BadLzf | Forever | Outside

  datatype Next = Go(c: Config) | Halt(c: Config, why: Stop)

  // ---------------------------------------------------------------- reading

  /** rdb_object_read_store_len: bytes taken, whether it is an encoding, the length. */
  function StoreLen(s: seq<int>): Option<(int, bool, int)> {
    if s == [] then None
    else
      var form := s[0] / 64;
      if form == 0 then Some((1, false, s[0] % 64))
      else if form == 1 then if |s| < 2 then None else Some((2, false, s[0] % 64 * 256 + s[1]))
      else if form == 2 then
        if |s| < 5 then None else Some((5, false, s[1] * 0x100_0000 + s[2] * 0x1_0000 + s[3] * 256 + s[4]))
      else Some((1, true, s[0] % 64))
  }

  function IntWidth(enc: int): int { if enc == 0 then 1 else if enc == 1 then 2 else 4 }

  /** rdb_object_read_int: one byte is not sign-extended. */
  function IntOf(s: seq<int>, enc: int): int {
    if enc == 0 then Le(s) else ToSigned(Le(s), Pow256(if enc == 1 then 2 else 4))
  }

  lemma StoreLenTakes(s: seq<int>)
    ensures StoreLen(s).Some? ==> 0 < StoreLen(s).value.0 <= |s|
    ensures StoreLen(s).None? ==> |s| < 5
  {
  }

  predicate IsString(ty: int) { ty == 0 || ty == 10 || ty == 12 || ty == 13 }

  function ValueOfItem(i: Item): Value { match i case Str(b) => Bytes(b) case Num(v) => Int(v) }

  function ValuesOfItems(items: seq<Item>): (r: seq<Value>)
    ensures |r| == |items|
  {
    seq(|items|, i requires 0 <= i < |items| => ValueOfItem(items[i]))
  }

  function Pairs(vals: seq<Value>): (r: seq<(Value, Value)>)
    ensures |r| == |vals| / 2
  {
    if |vals| < 2 then [] else [(vals[0], vals[1])] + Pairs(vals[2..])
  }

  lemma {:induction false} PairsAt(vals: seq<Value>, i: int)
    requires 0 <= i < |vals| / 2
    ensures Pairs(vals)[i] == (vals[2 * i], vals[2 * i + 1])
  {
    if i > 0 { PairsAt(vals[2..], i - 1); }
  }

  /** The object made of a string value, by type. */
  function ObjectOf(ty: int, v: Value): Option<Object> {
    if ty == 0 then Some(StrObject(v))
    else if v.Int? then None
    else
      var items := WalkFrom(v.s, HEADER_SIZE);
      if !items.Some? then None
      else
        var vals := ValuesOfItems(items.value);
        if ty == 10 then Some(ListObject(vals))
        else if |vals| % 2 == 1 then None
        else Some(HashObject(Pairs(vals)))
  }

  // ---------------------------------------------------------------- steps

  function Top(c: Config): Frame
    requires c.stack != []
  {
    c.stack[|c.stack| - 1]
  }

  function Below(c: Config): seq<Frame>
    requires c.stack != []
  {
    c.stack[..|c.stack| - 1]
  }

  function SetTop(c: Config, f: Frame): Config
    requires c.stack != []
  {
    c.(stack := Below(c) + [f])
  }

  function Push(c: Config, f: Frame): Config { c.(stack := c.stack + [f]) }

  function Return(c: Config, r: Ret): Config
    requires c.stack != []
  {
    c.(stack := Below(c), ret := r)
  }

  function Take(c: Config, n: int): Config
    requires 0 <= n <= |c.input|
  {
    c.(input := c.input[n..])
  }

  const NEW_STR: Frame := StrFrame(StrLen, 0, [])
  const NEW_LZF: Frame := LzfFrame(LzfLen, 0, 0, [])
  const NEW_LIST: Frame := ListFrame(false, 0, [])
  const NEW_HASH: Frame := HashFrame(HashLen, 0, Bytes([]), [])

  /** The builder for content of a type. */
  function Content(c: Config, ty: int): Next {
    if IsString(ty) then Go(Push(c, NEW_STR))
    else if ty == 1 || ty == 2 then Go(Push(c, NEW_LIST))
    else if ty == 3 || ty == 4 then Go(Push(c, NEW_HASH))
    else if ty == 9 || ty == 11 then Halt(c, Outside)
    else Halt(c, BadType)
  }

  /** The next state of a builder that reads its length. */
  function Sized(f: Frame, encoded: bool, len: int): Frame {
    match f
    case StrFrame(_, _, _) => StrFrame(if encoded then StrEnc else StrPlain, len, [])
    case LzfFrame(state, cLen, _, _) =>
      if state == LzfLen then LzfFrame(LzfRaw, len, 0, []) else LzfFrame(LzfData, cLen, len, [])
    case ListFrame(_, _, _) => ListFrame(true, len, [])
    case HashFrame(_, _, _, _) => HashFrame(HashKey, len, Bytes([]), [])
    case DumpFrame(_, _) => f
  }

  predicate ReadsLen(f: Frame) {
    match f
    case StrFrame(state, _, _) => state == StrLen
    case LzfFrame(state, _, _, _) => state != LzfData
    case ListFrame(sized, _, _) => !sized
    case HashFrame(state, _, _, _) => state == HashLen
    case DumpFrame(_, _) => false
  }

  function Length(c: Config): Next
    requires c.stack != []
  {
    StoreLenTakes(c.input);
    var l := StoreLen(c.input);
    if l.None? then Halt(c, Premature)
    else Go(SetTop(Take(c, l.value.0), Sized(Top(c), l.value.1, l.value.2)))
  }

  function Encoded(c: Config): Next
    requires c.stack != [] && Top(c).StrFrame?
  {
    var enc := Top(c).storeLen;
    if 0 <= enc <= 2 then
      var n := IntWidth(enc);
      if |c.input| < n then Halt(c, Premature)
      else Go(Return(Take(c, n), RetValue(Int(IntOf(c.input[..n], enc)))))
    else if enc == 3 then Go(Push(c, NEW_LZF))
    else Halt(c, BadEncoding)
  }

  /** The bytes a string or compressed string waits for in all. */
  function Target(f: Frame): int
    requires f.StrFrame? || f.LzfFrame?
  {
    if f.StrFrame? then f.storeLen else f.cLen
  }

  /** With all its bytes the builder is done, if they decompress.  The whole buffer becomes the
      string, however much of it the decompressor filled. */
  function Filled(f: Frame): Option<Value>
    requires f.StrFrame? || f.LzfFrame?
  {
    if f.StrFrame? then Some(Bytes(f.got))
    else
      match Lzf.Decode(f.got, 0, [], f.rawLen)
      case Done(text) => if |text| > f.rawLen then None else Some(Bytes(text + seq(f.rawLen - |text|, _ => -1)))
      case _ => None
  }

  function Data(c: Config): Next
    requires c.stack != [] && (Top(c).StrFrame? || Top(c).LzfFrame?)
  {
    var f := Top(c);
    var want := Target(f) - |f.got|;
    if want < 0 || (f.LzfFrame? && f.cLen == 0) then Halt(c, Outside)
    else if |c.input| < want then Halt(SetTop(c, f.(got := f.got + c.input)).(input := []), Premature)
    else
      var g := f.(got := f.got + c.input[..want]);
      var v := Filled(g);
      if v.None? then Halt(SetTop(Take(c, want), g), BadLzf) else Go(Return(Take(c, want), RetValue(v.value)))
  }

  /** A finished value or object reaches the builder below, or the callback. */
  function Deliver(c: Config): Next
    requires c.ret != Nothing
  {
    if c.stack == [] then Halt(c.(ret := Nothing), Outside)   // never: the main builder takes it
    else
      var f, d := Top(c), c.(ret := Nothing);
      match f
      case DumpFrame(_, ty) =>
        var o := if c.ret.RetObject? then Some(c.ret.o) else ObjectOf(ty, c.ret.v);
        if o.None? then Halt(d, Outside) else Go(d.(stack := Below(c), out := c.out + [o.value]))
      case StrFrame(_, _, _) => Go(c.(stack := Below(c)))
      case ListFrame(_, len, vals) =>
        if !c.ret.RetValue? then Halt(d, Outside)
        else
          var vals' := vals + [c.ret.v];
          if |vals'| < len then Go(SetTop(d, ListFrame(true, len, vals')))
            else Go(Return(c, RetObject(ListObject(vals'))))
      case HashFrame(state, len, key, kvs) =>
        if !c.ret.RetValue? then Halt(d, Outside)
        else if state != HashVal then Go(SetTop(d, HashFrame(HashVal, len, c.ret.v, kvs)))
        else
          var kvs' := kvs + [(key, c.ret.v)];
          if |kvs'| < len then Go(SetTop(d, HashFrame(HashKey, len, key, kvs')))
            else Go(Return(c, RetObject(HashObject(kvs'))))
      case LzfFrame(_, _, _, _) => Halt(d, Outside)
  }

  /** A list or hash with nothing left to collect sets its next state and asks for another turn: a
      hash that waits for a key then waits for a value, anything else stays as it is. */
  function Idles(f: Frame): Frame { 
    match f case HashFrame(_, len, key, kvs) => HashFrame(HashVal, len, key, kvs) case _ => f
  }

  /** Such a turn.  If it changes nothing, no later one will. */
  function GoesRound(c: Config): Next
    requires c.stack != []
  {
    if SetTop(c, Idles(Top(c))) == c then Halt(c, Forever) else Go(SetTop(c, Idles(Top(c))))
  }

  function Step(c: Config): Next {
    if c.ret != Nothing then Deliver(c)
    else if c.stack == [] then Go(Push(c, DumpFrame(false, 0)))
    else
      var f := Top(c);
      if ReadsLen(f) then Length(c)
      else
        match f
        case DumpFrame(typed, ty) =>
          if typed then Content(c, ty)
          else if c.input == [] then Halt(c, Premature)
          else Go(SetTop(Take(c, 1), DumpFrame(true, c.input[0])))
        case StrFrame(state, _, _) => if state == StrEnc then Encoded(c) else Data(c)
        case LzfFrame(_, _, _, _) => Data(c)
        case ListFrame(_, len, vals) => if |vals| < len then Go(Push(c, NEW_STR)) else GoesRound(c)
        case HashFrame(_, len, _, kvs) => if |kvs| < len then Go(Push(c, NEW_STR)) else GoesRound(c)
  }

  /** The state after k turns of the source's loop, of a builder with nothing left to collect. */
  function Turns(c: Config, k: nat): (r: Config)
    requires c.stack != []
    ensures r.stack != []
  {
    if k == 0 then c else SetTop(Turns(c, k - 1), Idles(Top(Turns(c, k - 1))))
  }

  /** Where the machine stops with Forever the source's turns change neither builders nor input,
      however many there are. */
  lemma {:induction false} ForeverIsForever(c: Config, k: nat)
    requires Step(c).Halt? && Step(c).why == Forever
    ensures c.stack != [] && (Top(c).ListFrame? || Top(c).HashFrame?) && !ReadsLen(Top(c)) && Turns(c, k) == c
  {
    hide StoreLen, ObjectOf, Filled, IntOf;
    if k > 0 { ForeverIsForever(c, k - 1); }
  }

  // ---------------------------------------------------------------- termination

  /** Decreases in every step that takes no input. */
  function Rank(c: Config): nat {
    if c.ret != Nothing then 10 + |c.stack|
    else if c.stack == [] then 5
    else
      var f := Top(c);
      if ReadsLen(f) then 1
      else if f.StrFrame? || f.LzfFrame? then 10 + |c.stack|
      else if f.DumpFrame? && !f.typed then 1
      else if f.HashFrame? && f.hashState == HashKey then 6
      else 5
  }

  predicate Before(c: Config, c': Config) {
    |c'.input| < |c.input| || (|c'.input| == |c.input| && Rank(c') < Rank(c))
  }

  lemma LengthDecreases(c: Config)
    requires c.stack != [] && c.ret == Nothing && Length(c).Go?
    ensures Before(c, Length(c).c)
  {
    StoreLenTakes(c.input);
    hide StoreLen;
  }

  lemma ReadDecreases(c: Config)
    requires c.stack != [] && c.ret == Nothing && Rank(c) >= 5
    ensures forall ty :: Content(c, ty).Go? ==> Before(c, Content(c, ty).c)
    ensures Top(c).StrFrame? && Encoded(c).Go? ==> Before(c, Encoded(c).c)
  {
    hide IntOf;
  }

  lemma DataDecreases(c: Config)
    requires c.stack != [] && c.ret == Nothing && (Top(c).StrFrame? || Top(c).LzfFrame?) && !ReadsLen(Top(c))
             && Data(c).Go?
    ensures Before(c, Data(c).c)
  {
    hide Filled;
  }

  lemma DeliverDecreases(c: Config)
    requires c.ret != Nothing && Deliver(c).Go?
    ensures Before(c, Deliver(c).c)
  {
    hide ObjectOf;
  }

  lemma StepDecreases(c: Config)
    ensures Step(c).Go? ==> Before(c, Step(c).c)
  {
    hide Length, Encoded, Data, Deliver, Content;
    if Step(c).Go? {
      if c.ret != Nothing {
        DeliverDecreases(c);
      } else if c.stack != [] {
        var f := Top(c);
        if ReadsLen(f) {
          LengthDecreases(c);
        } else {
          if Rank(c) >= 5 { ReadDecreases(c); }
          if f.StrFrame? || f.LzfFrame? { if !(f.StrFrame? && f.strState == StrEnc) { DataDecreases(c); } }
        }
      }
    }
  }

  /** Work through the input until a builder at depth d has finished, or no step is possible. */
  function RunTo(c: Config, d: int): (r: Next)
    ensures d < 0 ==> r.Halt?
    ensures r.Go? ==> r.c.ret != Nothing && |r.c.stack| <= d
    decreases |c.input|, Rank(c)
  {
    if c.ret != Nothing && |c.stack| <= d then Go(c)
    else
      StepDecreases(c);
      var r := Step(c);
      if r.Go? then RunTo(r.c, d) else r
  }

  /** rdb_parse_dumped_data_once: until the input is used up or an error is met. */
  function Run(c: Config): (r: Next)
    ensures r.Halt?
  {
    RunTo(c, -1)
  }

  lemma RunUnfolds(c: Config)
    ensures var r := Step(c); Run(c) == if r.Go? then Run(r.c) else r
  {
    hide Step, Rank;
  }

  // ---------------------------------------------------------------- pieces

  /** More bytes arrive. */
  function More(c: Config, b: seq<int>): Config { c.(input := c.input + b) }

  lemma LengthMore(c: Config, b: seq<int>)
    requires c.stack != [] && Length(c).Go?
    ensures Length(More(c, b)) == Go(More(Length(c).c, b))
  {
    StoreLenTakes(c.input);
    var n := StoreLen(c.input).value.0;
    assert StoreLen(c.input + b) == StoreLen(c.input);
    assert (c.input + b)[n..] == c.input[n..] + b;
  }

  lemma EncodedMore(c: Config, b: seq<int>)
    requires c.stack != [] && Top(c).StrFrame? && Encoded(c).Go?
    ensures Encoded(More(c, b)) == Go(More(Encoded(c).c, b))
  {
    hide IntOf;
    var n := IntWidth(Top(c).storeLen);
    if |c.input| >= n {
      assert (c.input + b)[..n] == c.input[..n] && (c.input + b)[n..] == c.input[n..] + b;
    }
  }

  /** A builder on top of others, once it has seen all these bytes. */
  function Seen(c: Config, below: seq<Frame>, f: Frame, all: seq<int>): Next
    requires f.StrFrame? || f.LzfFrame?
  {
    var n := Target(f);
    if |all| < n then Halt(c.(stack := below + [f.(got := all)], input := []), Premature)
    else if n < 0 then Halt(c, Outside)
    else
      var v := Filled(f.(got := all[..n]));
      if v.None? then Halt(c.(stack := below + [f.(got := all[..n])], input := all[n..]), BadLzf)
      else Go(c.(stack := below, input := all[n..], ret := RetValue(v.value)))
  }

  predicate Sane(f: Frame)
    requires f.StrFrame? || f.LzfFrame?
  {
    |f.got| <= Target(f) && !(f.LzfFrame? && f.cLen == 0)
  }

  lemma DataIsSeen(c: Config)
    requires c.stack != [] && (Top(c).StrFrame? || Top(c).LzfFrame?) && Sane(Top(c))
    ensures Data(c) == Seen(c, Below(c), Top(c), Top(c).got + c.input)
  {
    hide Filled;
    var f, n := Top(c), Target(Top(c));
    var want, all := n - |f.got|, f.got + c.input;
    if |c.input| >= want {
      assert all[..n] == f.got + c.input[..want] && all[n..] == c.input[want..];
    }
  }

  lemma DataMore(c: Config, b: seq<int>)
    requires c.stack != [] && (Top(c).StrFrame? || Top(c).LzfFrame?)
    ensures Data(c).Go? ==> Data(More(c, b)) == Go(More(Data(c).c, b))
    ensures Data(c).Halt? && Data(c).why != Premature ==> Data(More(c, b)) == Halt(More(Data(c).c, b), Data(c).why)
  {
    hide Filled;
    var want := Target(Top(c)) - |Top(c).got|;
    if 0 <= want <= |c.input| {
      assert (c.input + b)[..want] == c.input[..want] && (c.input + b)[want..] == c.input[want..] + b;
    }
  }

  /** A step that was possible, or an error, is the same when more bytes are there. */
  lemma StepMore(c: Config, b: seq<int>)
    ensures Step(c).Go? ==> Step(More(c, b)) == Go(More(Step(c).c, b))
    ensures Step(c).Halt? && Step(c).why != Premature ==> Step(More(c, b)) == Halt(More(Step(c).c, b), Step(c).why)
  {
    hide Encoded, Data, StoreLen, ObjectOf;
    if c.ret == Nothing && c.stack != [] {
      var f := Top(c);
      if ReadsLen(f) {
        if Length(c).Go? { LengthMore(c, b); }
      } else if f.StrFrame? && f.strState == StrEnc {
        if Encoded(c).Go? { EncodedMore(c, b); } else if Encoded(c).why != Premature { EncodedErrs(c, b); }
      } else if f.StrFrame? || f.LzfFrame? {
        DataMore(c, b);
      } else if f.DumpFrame? && !f.typed && c.input != [] {
        assert (c.input + b)[1..] == c.input[1..] + b;
      }
    }
  }

  lemma EncodedErrs(c: Config, b: seq<int>)
    requires c.stack != [] && Top(c).StrFrame? && Encoded(c).Halt? && Encoded(c).why != Premature
    ensures Encoded(More(c, b)) == Halt(More(Encoded(c).c, b), Encoded(c).why)
  {
  }

  /** The state in which the decoder finds it cannot go on. */
  function Last(c: Config): Config
    decreases |c.input|, Rank(c)
  {
    StepDecreases(c);
    var r := Step(c);
    if r.Go? then Last(r.c) else c
  }

  lemma LastUnfolds(c: Config)
    ensures Last(c) == if Step(c).Go? then Last(Step(c).c) else c
  {
    hide Step, Rank;
  }

  lemma {:induction false} LastIsLast(c: Config)
    ensures Step(Last(c)).Halt? && Run(c) == Step(Last(c))
    decreases |c.input|, Rank(c)
  {
    hide Step, Rank, Run;
    StepDecreases(c);
    RunUnfolds(c);
    LastUnfolds(c);
    if Step(c).Go? { LastIsLast(Step(c).c); }
  }

  lemma {:induction false} RunMore(c: Config, b: seq<int>)
    ensures Run(More(c, b)) == Run(More(Last(c), b))
    decreases |c.input|, Rank(c)
  {
    hide Step, Rank, Run, More;
    StepDecreases(c);
    LastUnfolds(c);
    StepMore(c, b);
    if Step(c).Go? {
      RunUnfolds(More(c, b));
      RunMore(Step(c).c, b);
    }
  }

  lemma DataHalts(l: Config)
    requires l.stack != [] && (Top(l).StrFrame? || Top(l).LzfFrame?) && Data(l).Halt? && Data(l).why == Premature
    ensures var f, h := Top(l), Data(l).c;
            && |f.got| + |l.input| < Target(f) && !(f.LzfFrame? && f.cLen == 0)
            && h == SetTop(l, f.(got := f.got + l.input)).(input := []) && Top(h) == f.(got := f.got + l.input)
                && Below(h) == Below(l)
  {
  }

  lemma DataResumes(l: Config, b: seq<int>)
    requires l.stack != [] && (Top(l).StrFrame? || Top(l).LzfFrame?) && Data(l).Halt? && Data(l).why == Premature
    ensures Data(More(Data(l).c, b)) == Data(More(l, b))
  {
    var f, h := Top(l), Data(l).c;
    DataHalts(l);
    hide Data, Filled;
    assert More(h, b).input == b;
    assert (f.got + l.input) + b == f.got + (l.input + b);
    DataIsSeen(More(l, b));
    DataIsSeen(More(h, b));
  }

  /** A state that waits for input, from which a longer input leads to the same as from before. */
  lemma HaltResumes(l: Config, b: seq<int>)
    requires Step(l).Halt? && Step(l).why == Premature
    ensures Run(More(Step(l).c, b)) == Run(More(l, b)) && |Step(l).c.input| < 5
  {
    hide Encoded, Data, StoreLen, ObjectOf, Run;
    var h := Step(l).c;
    var f := Top(l);
    if ReadsLen(f) {
      StoreLenTakes(l.input);
    } else if f.StrFrame? && f.strState == StrEnc {
      EncodedHalts(l);
    } else if f.StrFrame? || f.LzfFrame? {
      DataHalts(l);
      DataResumes(l, b);
      RunUnfolds(More(l, b));
      RunUnfolds(More(h, b));
    }
  }

  lemma EncodedHalts(l: Config)
    requires l.stack != [] && Top(l).StrFrame? && Encoded(l).Halt? && Encoded(l).why == Premature
    ensures Encoded(l).c == l && |l.input| < 4
  {
  }

  /** Waiting for input in between makes no difference. */
  lemma RunResumes(c: Config, b: seq<int>)
    ensures Run(c).why == Premature ==> Run(More(Run(c).c, b)) == Run(More(c, b)) && |Run(c).c.input| < 5
    ensures Run(c).why != Premature ==> Run(More(c, b)) == Halt(More(Run(c).c, b), Run(c).why)
  {
    hide Run, Step;
    var l := Last(c);
    LastIsLast(c);
    RunMore(c, b);
    if Run(c).why == Premature {
      HaltResumes(l, b);
    } else {
      StepMore(l, b);
      RunUnfolds(More(l, b));
    }
  }

  /** The pieces are decoded as they arrive; an error ends it. */
  function Feed(c: Config, chunks: seq<seq<int>>): Next
    decreases |chunks|
  {
    if chunks == [] then Halt(c, Premature)
    else
      var r := Run(More(c, chunks[0]));
      if r.why == Premature then Feed(r.c, chunks[1..])
      else Halt(More(r.c, Concat(chunks[1..])), r.why)
  }

  function Concat(chunks: seq<seq<int>>): seq<int> {
    if chunks == [] then [] else chunks[0] + Concat(chunks[1..])
  }

  lemma RestsWhereItHalts(c: Config)
    requires Run(c).why == Premature
    ensures Run(Run(c).c) == Run(c)
  {
    hide Run;
    RunResumes(c, []);
    assert More(c, []) == c && More(Run(c).c, []) == Run(c).c;
  }

  /** Any input, malformed or not, may be cut into any pieces. */
  lemma {:induction false} ChunksDoNotMatter(c: Config, chunks: seq<seq<int>>)
    requires Run(c) == Halt(c, Premature)
    ensures Feed(c, chunks) == Run(More(c, Concat(chunks)))
    decreases |chunks|
  {
    hide Run;
    if chunks == [] {
      assert More(c, []) == c;
    } else {
      var c1, rest := More(c, chunks[0]), Concat(chunks[1..]);
      assert More(c1, rest) == More(c, chunks[0] + rest) by {
        assert c.input + chunks[0] + rest == c.input + (chunks[0] + rest);
      }
      RunResumes(c1, rest);
      if Run(c1).why == Premature {
        RestsWhereItHalts(c1);
        ChunksDoNotMatter(Run(c1).c, chunks[1..]);
      }
    }
  }

  // ---------------------------------------------------------------- shape

  /** g is a builder that f has asked for. */
  predicate Asked(f: Frame, g: Frame) {
    match f
    case DumpFrame(typed, ty) =>
      typed && if IsString(ty) then g.StrFrame? else if ty == 1 || ty == 2 then g.ListFrame?
        else (ty == 3 || ty == 4) && g.HashFrame?
    case ListFrame(sized, len, vals) => sized && |vals| < len && g.StrFrame?
    case HashFrame(state, len, _, kvs) => state != HashLen && |kvs| < len && g.StrFrame?
    case StrFrame(state, len, _) => state == StrEnc && len == 3 && g.LzfFrame?
    case LzfFrame(_, _, _, _) => false
  }

  /** What a finished builder hands to the one below it. */
  predicate Takes(f: Frame, r: Ret) {
    match f
    case DumpFrame(typed, ty) => typed && if IsString(ty) then r.RetValue? else 1 <= ty <= 4 && r.RetObject?
    case ListFrame(sized, len, vals) => sized && |vals| < len && r.RetValue?
    case HashFrame(state, len, _, kvs) => state != HashLen && |kvs| < len && r.RetValue?
    case StrFrame(state, len, _) => state == StrEnc && len == 3 && r.RetValue?
    case LzfFrame(_, _, _, _) => false
  }

  predicate Shape(c: Config) {
    && (forall i | 0 <= i < |c.stack| :: c.stack[i].DumpFrame? <==> i == 0)
    && (forall i | 0 < i < |c.stack| :: Asked(c.stack[i - 1], c.stack[i]))
    && (c.ret != Nothing ==> c.stack != [] && Takes(Top(c), c.ret))
  }

  function Level(f: Frame): int {
    match f case DumpFrame(_, _) => 0 case ListFrame(_, _, _) => 1 case HashFrame(_, _, _, _) => 1
      case StrFrame(_, _, _) => 2 case LzfFrame(_, _, _, _) => 3
  }

  lemma {:induction false} LevelsRise(c: Config, i: int)
    requires Shape(c) && 0 <= i < |c.stack|
    ensures i <= Level(c.stack[i])
  {
    if i > 0 {
      LevelsRise(c, i - 1);
      assert Asked(c.stack[i - 1], c.stack[i]);
    }
  }

  /** The builder stack never holds more than four of its sixteen slots. */
  lemma AtMostFour(c: Config)
    requires Shape(c)
    ensures |c.stack| <= 4
  {
    if c.stack != [] { LevelsRise(c, |c.stack| - 1); }
  }

  lemma PushKeepsShape(c: Config, g: Frame)
    requires Shape(c) && c.ret == Nothing && !g.DumpFrame? && c.stack != [] && Asked(Top(c), g)
    ensures Shape(Push(c, g))
  {
    hide Asked, Takes;
  }

  lemma SetKeepsShape(c: Config, g: Frame)
    requires Shape(c) && c.stack != [] && (Top(c).DumpFrame? <==> g.DumpFrame?)
    requires forall f | Asked(f, Top(c)) :: Asked(f, g)
    ensures Shape(SetTop(c, g).(ret := Nothing))
  {
    hide Asked, Takes;
    var s := Below(c) + [g];
    assert forall i | 0 < i < |s| :: Asked(s[i - 1], s[i]) by {
      forall i | 0 < i < |s| ensures Asked(s[i - 1], s[i]) {
        assert Asked(c.stack[i - 1], c.stack[i]);
      }
    }
  }

  lemma PopKeepsShape(c: Config, r: Ret)
    requires Shape(c) && |c.stack| > 1 && r != Nothing
    requires forall f | Asked(f, Top(c)) :: Takes(f, r)
    ensures Shape(Return(c, r))
  {
    hide Takes;
    assert Asked(c.stack[|c.stack| - 2], c.stack[|c.stack| - 1]);
    hide Asked;
  }

  lemma LengthKeepsShape(c: Config)
    requires Shape(c) && c.ret == Nothing && c.stack != [] && ReadsLen(Top(c)) && Length(c).Go?
    ensures Shape(Length(c).c)
  {
    hide StoreLen;
    StoreLenTakes(c.input);
    var f, l := Top(c), StoreLen(c.input).value;
    SetKeepsShape(Take(c, l.0), Sized(f, l.1, l.2));
  }

  lemma DeliverKeepsShape(c: Config)
    requires Shape(c) && c.ret != Nothing && Deliver(c).Go?
    ensures Shape(Deliver(c).c)
  {
    hide ObjectOf, Shape;
    var f := Top(c);
    ShapeIsDeep(c);
    match f
    case DumpFrame(_, _) => EmptyHasShape(c);
    case StrFrame(_, _, _) => PopKeepsShape(c, c.ret);
    case ListFrame(_, len, vals) =>
      var vals' := vals + [c.ret.v];
      if |vals'| < len {
        SetKeepsShape(c, ListFrame(true, len, vals'));
      } else {
        PopKeepsShape(c, RetObject(ListObject(vals')));
      }
    case HashFrame(state, len, key, kvs) =>
      if state != HashVal {
        SetKeepsShape(c, HashFrame(HashVal, len, c.ret.v, kvs));
      } else {
        var kvs' := kvs + [(key, c.ret.v)];
        if |kvs'| < len {
          SetKeepsShape(c, HashFrame(HashKey, len, key, kvs'));
        } else {
          PopKeepsShape(c, RetObject(HashObject(kvs')));
        }
      }
  }

  lemma ShapeIsDeep(c: Config)
    requires Shape(c) && c.ret != Nothing
    ensures c.stack != [] && Takes(Top(c), c.ret) && (Top(c).DumpFrame? <==> |c.stack| == 1)
  {
  }

  lemma EmptyHasShape(c: Config)
    requires Shape(c) && |c.stack| == 1
    ensures forall out :: Shape(Config([], c.input, Nothing, out))
    ensures Below(c) == []
  {
  }

  /** Every step keeps the shape of the builder stack. */
  lemma StepKeepsShape(c: Config)
    requires Shape(c) && Step(c).Go?
    ensures Shape(Step(c).c)
  {
    hide Length, Deliver, Shape, StoreLen, IntOf, Filled;
    if c.ret != Nothing {
      DeliverKeepsShape(c);
    } else if c.stack == [] {
      StartHasShape(c);
    } else {
      TopIsMain(c);
      var f := Top(c);
      if ReadsLen(f) {
        LengthKeepsShape(c);
      } else {
        match f
        case DumpFrame(typed, ty) =>
          if typed {
            PushKeepsShape(c, Top(Content(c, ty).c));
          } else {
            MainKeepsShape(Take(c, 1), DumpFrame(true, c.input[0]));
          }
        case StrFrame(state, enc, _) =>
          if state == StrEnc && enc == 3 {
            PushKeepsShape(c, NEW_LZF);
          } else {
            DonePops(c);
          }
        case LzfFrame(_, _, _, _) => DonePops(c);
        case ListFrame(_, _, _) => PushKeepsShape(c, NEW_STR);
        case HashFrame(_, len, _, kvs) =>
          if |kvs| < len { PushKeepsShape(c, NEW_STR); } else { SetKeepsShape(c, Idles(f)); }
      }
    }
  }

  lemma DonePops(c: Config)
    requires Shape(c) && c.ret == Nothing && |c.stack| > 1 && (Top(c).StrFrame? || Top(c).LzfFrame?)
    requires Step(c).Go? && |Step(c).c.stack| < |c.stack|
    ensures Shape(Step(c).c)
  {
    hide StoreLen, IntOf, Filled;
    var c' := Step(c).c;
    var n := |c.input| - |c'.input|;
    assert c' == Return(Take(c, n), c'.ret) && c'.ret.RetValue?;
    PopKeepsShape(Take(c, n), c'.ret);
  }

  lemma StartHasShape(c: Config)
    requires Shape(c) && c.stack == [] && c.ret == Nothing
    ensures Shape(Push(c, DumpFrame(false, 0)))
  {
  }

  lemma TopIsMain(c: Config)
    requires Shape(c) && c.stack != []
    ensures Top(c).DumpFrame? <==> |c.stack| == 1
  {
  }

  lemma MainKeepsShape(c: Config, g: Frame)
    requires Shape(c) && |c.stack| == 1 && c.ret == Nothing && g.DumpFrame?
    ensures Shape(SetTop(c, g))
  {
  }
}
