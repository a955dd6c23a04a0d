/** The reply parser of src/base/reply_parser in the form of the source: one function per kind of
    builder, each working in a loop and calling the next, all of them returning when the input runs
    out and finding their place again through the builder stack.

    Every function is proved to do what the machine of `RespMachine` does until the builder it
    works on is done. */
module RespParser {
  import opened Wrappers
  import opened StringSearch
  import opened RespMachine

  /** Return codes: RRB_OVER with the reply just built, RRB_AGAIN, and the errors. */
  datatype Rc = Over(r: Reply) | Again | Err(why: Stop)

  // ---------------------------------------------------------------- the machine, level by level

  /** Go on to depth d from an intermediate result. */
  function Onward(r: Next, d: int): Next { if r.Go? then RunTo(r.c, d) else r }

  lemma RunToUnfolds(c: Config, d: int)
    requires c.ret.None? || |c.stack| > d
    ensures RunTo(c, d) == Onward(Step(c), d)
  {
    hide Step, Rank;
  }

  lemma RunToStops(c: Config, d: int)
    requires c.ret.Some? && |c.stack| <= d
    ensures RunTo(c, d) == Go(c)
  {
  }

  /** Finishing the builders above level d + 1 comes first. */
  lemma {:induction false} RunToSplit(c: Config, d: int)
    ensures RunTo(c, d) == Onward(RunTo(c, d + 1), d)
    decreases |c.input|, Rank(c)
  {
    hide Step, Rank, RunTo;
    if c.ret.Some? && |c.stack| <= d + 1 {
      RunToStops(c, d + 1);
    } else {
      StepDecreases(c);
      RunToUnfolds(c, d);
      RunToUnfolds(c, d + 1);
      if Step(c).Go? { RunToSplit(Step(c).c, d); }
    }
  }

  lemma {:induction false} RunToBefore(c: Config, d: int)
    requires (c.ret.None? || |c.stack| > d) && RunTo(c, d).Go?
    ensures Before(c, RunTo(c, d).c)
    decreases |c.input|, Rank(c)
  {
    hide Step, Rank, RunTo;
    StepDecreases(c);
    RunToUnfolds(c, d);
    var c' := Step(c).c;
    if c'.ret.Some? && |c'.stack| <= d {
      RunToStops(c', d);
    } else {
      RunToBefore(c', d);
    }
  }

  /** What one turn of a builder's loop does: a step of the machine, except that a finished builder
      is popped only behind the loop. */
  predicate Stepped(c: Config, c': Config, rc: Rc) {
    var r := Step(c);
    if r.Halt? then rc == Err(r.why) && c' == r.c
    else if r.c.ret.None? then rc == Again && c' == r.c
    else rc == Over(r.c.ret.value) && |c'.stack| == |c.stack| > 0 && Popped(c', r.c.ret.value) == r.c
  }

  function Popped(c: Config, r: Reply): Config
    requires c.stack != []
  {
    c.(stack := c.stack[..|c.stack| - 1], ret := Some(r))
  }

  /** Of the builders at most the top one has changed. */
  predicate OnlyTop(s: seq<Frame>, s': seq<Frame>) {
    |s'| == |s| > 0 && s'[..|s| - 1] == s[..|s| - 1]
  }

  /** In the loop of the builder at a depth: what is left of a run of the machine to that depth. */
  predicate Loop(r: Next, depth: int, c: Config, rc: Rc) {
    match rc
    case Again => r == RunTo(c, depth)
    case Err(why) => r == Halt(c, why)
    case Over(v) => |c.stack| == depth + 1 > 0 && r == Go(Popped(c, v))
  }

  /** One turn of a loop whose own builder is on top. */
  lemma Turn(c: Config, c': Config, depth: int, rc: Rc)
    requires c.ret.None? && |c.stack| == depth + 1 > 0 && Shape(c) && Stepped(c, c', rc)
    ensures Loop(RunTo(c, depth), depth, c', rc)
    ensures rc == Again ==> Before(c, c')
    ensures rc != Err(BadBulk) && !rc.Over? ==> Shape(c')
    ensures rc.Over? ==> Shape(Popped(c', rc.r))
  {
    hide Step, Shape, RunTo, Rank;
    StepDecreases(c);
    RunToUnfolds(c, depth);
    StepKeepsShape(c);
    if rc.Over? { RunToStops(Step(c).c, depth); }
  }

  /** Only a main builder or an array has another builder above it. */
  lemma LeafOnTop(c: Config, depth: int)
    requires Shape(c) && 0 < depth < |c.stack| && (c.stack[depth].BulkFrame? || c.stack[depth].SimpleFrame?)
    ensures |c.stack| == depth + 1
  {
    AskedAt(c, depth + 1);
  }

  lemma ShapeTop(c: Config)
    requires Shape(c) && c.stack != []
    ensures FrameOk(Top(c))
  {
  }

  lemma LineEndIs(input: seq<int>)
    ensures LineEnd(input) == if |input| < 2 then -1 else Find(input, CRLF)
  {
  }

  lemma AskedAt(c: Config, i: int)
    requires Shape(c) && 0 < i
    ensures i < |c.stack| ==> Asked(c.stack[i - 1], c.stack[i])
  {
    hide Asked;
  }

  /** An element reaches its array: the machine's step and what follows it. */
  lemma ElementDelivered(cr: Config, depth: int)
    requires |cr.stack| == depth + 1 > 0 && cr.stack[depth].ArrayFrame? && cr.ret.Some?
    requires Shape(cr.(ret := None)) && Waiting(cr.stack[depth])
    ensures var f, c' := cr.stack[depth], Step(cr).c;
            var elems := f.elems + [cr.ret.value];
            && Before(cr, c') && Shape(c')
            && (if |elems| + 1 <= f.len then
                  && c' == cr.(stack := cr.stack[depth := f.(state := AType, elems := elems)], ret := None)
                  && RunTo(cr, depth) == RunTo(c', depth)
                else c' == cr.(stack := cr.stack[..depth], ret := Some(Arr(elems))) && RunTo(cr, depth) == Go(c'))
  {
    hide RunTo;
    StepDecreases(cr);
    StepKeepsShape(cr);
    RunToUnfolds(cr, depth);
    if Step(cr).c.ret.Some? { RunToStops(Step(cr).c, depth); }
  }

  lemma Starts(c: Config)
    requires c.stack == [] && c.ret.None?
    ensures RunTo(c, 0) == RunTo(c.(stack := [TopFrame(false, TInteger)]), 0)
  {
    hide RunTo;
    RunToUnfolds(c, 0);
    assert c.stack + [TopFrame(false, TInteger)] == [TopFrame(false, TInteger)];
  }

  lemma TopDelivered(cr: Config)
    requires |cr.stack| == 1 && cr.stack[0].TopFrame? && cr.ret.Some?
    ensures RunTo(cr, 0) == Go(cr.(stack := []))
  {
    hide RunTo;
    RunToUnfolds(cr, 0);
    RunToStops(cr.(stack := []), 0);
  }

  /** A reply reaches the callback. */
  lemma HandedOver(c: Config, cr: Config)
    requires c.ret.None? && RunTo(c, 0) == Go(cr) && cr.stack == [] && cr.ret.Some?
    ensures var c' := cr.(ret := None, out := cr.out + [cr.ret.value]); RunTo(cr, -1) == RunTo(c', -1) && Before(c, c')
  {
    hide RunTo;
    RunToBefore(c, 0);
    StepDecreases(cr);
    RunToUnfolds(cr, -1);
  }

  // ---------------------------------------------------------------- the parser

  class ReplyParser {
    var stack: seq<Frame>
    var input: seq<int>
    var out: seq<Reply>

    ghost function Conf(): Config
      reads this
    {
      Config(stack, input, None, out)
    }

    ghost predicate Valid()
      reads this
    {
      Shape(Conf())
    }

    /** The state and return code agree with a run of the machine to depth d. */
    ghost predicate Did(r: Next, rc: Rc)
      reads this
    {
      if r.Go? then r.c.ret.Some? && rc == Over(r.c.ret.value) && Conf() == r.c.(ret := None)
      else rc == Err(r.why) && Conf() == r.c
    }

    constructor ()
      ensures Valid() && stack == [] && input == [] && out == []
    {
      stack, input, out := [], [], [];
    }

    /** redis_reply_read_integer: 0 if there is no whole line. */
    method ReadInteger() returns (n: int, v: int)
      ensures n == if LineEnd(input) < 0 then 0 else LineEnd(input) + 2
      ensures n > 0 ==> n <= |input| && v == IntValue(input[..n - 2])
    {
      v := 0;
      hide LineEnd, Find;
      LineEndIs(input);
      if |input| < 2 { return 0, 0; }
      var p2 := FastStrStr(input, CRLF);
      LineEndRange(input);
      if p2 < 0 { return 0, 0; }
      var negative := 1;
      hide Wrap64, Signed;
      for p := 0 to p2
        invariant v == Digits(input[..p]) && negative == if 45 in input[..p] then -1 else 1
      {
        assert input[..p + 1] == input[..p] + [input[p]] && input[..p + 1][..p] == input[..p];
        if input[p] == 45 {
          negative := -1;
        } else {
          v := Wrap64(Wrap64(v * 10) + (Signed(input[p]) - 48));
        }
      }
      n := p2 + 2;
      if negative == -1 { v := Wrap64(v * negative); }
    }

    /** r_build_integer. */
    method BuildInteger() returns (rc: Rc)
      modifies this`input
      ensures LineEnd(old(input)) < 0 ==> rc == Err(Premature) && input == old(input)
      ensures var i := LineEnd(old(input));
              i >= 0 ==>
                i + 2 <= |old(input)| && input == old(input)[i + 2..] && rc == Over(Number(IntValue(old(input)[..i])))
    {
      LineEndRange(input);
      var n, v := ReadInteger();
      if n == 0 { return Err(Premature); }
      input := input[n..];
      rc := Over(Number(v));
    }

    /** The builder below depth waits for content of the type, perhaps with builders at work on it. */
    ghost predicate Calls(depth: int, ty: Type)
      reads this
    {
      Valid() && 0 < depth <= |stack| <= SLOTS && Waiting(stack[depth - 1]) && WaitsFor(stack[depth - 1]) == ty
    }

    /** __build_bulk_string_store_len. */
    method BulkStoreLen() returns (rc: Rc)
      requires Valid() && stack != [] && Top(Conf()).BulkFrame? && !Top(Conf()).sized
      modifies this
      ensures Stepped(old(Conf()), Conf(), rc)
      ensures OnlyTop(old(stack), stack)
      ensures rc == Again ==> Top(Conf()).BulkFrame?
    {
      rc := BuildInteger();
      if rc.Over? {
        var len := rc.r.v;
        if len >= 0 {
          if len % U32 + 3 >= U32 { return Err(TooBig); }
          stack := stack[|stack| - 1 := BulkFrame(true, len % U32, [])];
          rc := Again;
        } else {
          rc := Over(Null(false));
        }
      }
    }

    /** __build_bulk_string_plain. */
    method BulkPlain() returns (rc: Rc)
      requires Valid() && stack != [] && Top(Conf()).BulkFrame? && Top(Conf()).sized
      modifies this
      ensures Stepped(old(Conf()), Conf(), rc)
      ensures OnlyTop(old(stack), stack)
      ensures rc != Again
    {
      var n := |stack| - 1;
      var f := stack[n];
      var bufSize, want := |input|, f.storeLen + 2 - |f.got|;
      var consume := if bufSize < want then bufSize else want;
      var got := f.got + input[..consume];
      stack := stack[n := f.(got := got)];
      if consume == want {
        if got[f.storeLen..] != CRLF { return Err(BadBulk); }
        got := got[..f.storeLen];
        input := input[consume..];
        return Over(Text(Bulk, [got], f.storeLen));
      }
      assert input[..bufSize] == input && input[bufSize..] == [];
      input := input[consume..];
      rc := Err(Premature);
    }

    /** The state after the content of the builder below depth was asked for in state c. */
    ghost predicate Built(c: Config, depth: int, ty: Type, rc: Rc)
      requires 0 < depth <= |c.stack|
      reads this
    {
      && Did(RunTo(c, depth), rc)
      && (rc != Err(BadBulk) ==> Valid())
      && (rc.Over? ==> Calls(depth, ty) && stack == c.stack[..depth])
      && rc != Again
    }

    /** stack_alloc_reply_builder: find the builder at this depth or push it. */
    method Alloc(depth: int, ty: Type) returns (ok: bool)
      requires Calls(depth, ty) && ty != TInteger
      modifies this
      ensures !ok ==> Did(RunTo(old(Conf()), depth), Err(TooDeep)) && Valid()
      ensures ok ==> Calls(depth, ty) && |stack| > depth && SameBuilder(ty, stack[depth])
      ensures ok ==> RunTo(Conf(), depth) == RunTo(old(Conf()), depth)
      ensures ok ==> input == old(input) && out == old(out) && stack[..depth] == old(stack)[..depth]
    {
      ok := true;
      if |stack| == depth {
        ghost var c0 := Conf();
        hide LineEnd, IntValue, Append, RunTo;
        RunToUnfolds(c0, depth);
        StepKeepsShape(c0);
        if depth >= SLOTS { return false; }
        stack := stack + [NewFrame(ty)];
      } else {
        hide RunTo;
        assert Asked(stack[depth - 1], stack[depth]);
      }
    }

    /** r_build_bulk_string: alloc or find the builder, work until it is done or stuck, pop it. */
    method BuildBulkString(depth: int) returns (rc: Rc)
      requires Calls(depth, TBulk)
      modifies this
      ensures Built(old(Conf()), depth, TBulk, rc)
    {
      hide RunTo, Step, Rank;
      ghost var c0 := Conf();
      var ok := Alloc(depth, TBulk);
      if !ok { return Err(TooDeep); }
      LeafOnTop(Conf(), depth);
      rc := Again;
      while rc == Again
        invariant |stack| == depth + 1 && stack[..depth] == c0.stack[..depth]
        invariant rc == Again ==> Valid() && stack[depth].BulkFrame?
        invariant rc.Err? && rc.why != BadBulk ==> Valid()
        invariant rc.Over? ==> Shape(Popped(Conf(), rc.r))
        invariant Loop(RunTo(c0, depth), depth, Conf(), rc)
        decreases rc == Again, |input|, Rank(Conf())
      {
        ghost var c := Conf();
        if stack[depth].sized { rc := BulkPlain(); } else { rc := BulkStoreLen(); }
        Turn(c, Conf(), depth, rc);
      }
      if rc.Over? { stack := stack[..|stack| - 1]; }
    }

    /** The copying loop of a simple string. */
    method CopyPieces(bufs: seq<seq<int>>, storeLen: int, p1: seq<int>, size: int)
      returns (bufs': seq<seq<int>>, storeLen': int)
      requires 0 <= size <= |p1| && 0 <= storeLen < U32
      ensures bufs' == Append(bufs, p1, size) && storeLen' == (storeLen + size) % U32
    {
      var remain := size;
      bufs', storeLen' := bufs, storeLen;
      while remain > 0
        invariant 0 <= remain <= size
        invariant Append(bufs', p1, remain) == Append(bufs, p1, size)
        invariant storeLen' == (storeLen + (size - remain)) % U32
        decreases remain, if bufs' != [] && |bufs'[|bufs'| - 1]| < BUF_SIZE then 0 else 1
      {
        var last := |bufs'| - 1;
        if last < 0 || |bufs'[last]| >= BUF_SIZE {
          bufs' := bufs' + [[]];
          continue;
        }
        var n := Min(BUF_SIZE - |bufs'[last]|, remain);
        bufs' := bufs'[last := Overlay(bufs'[last], p1, n)];
        storeLen' := (storeLen' + n) % U32;
        remain := remain - n;
      }
    }

    /** __build_simple_string_plain. */
    method SimplePlain() returns (rc: Rc)
      requires Valid() && stack != [] && Top(Conf()).SimpleFrame? && Top(Conf()).started
      modifies this
      ensures Stepped(old(Conf()), Conf(), rc)
      ensures OnlyTop(old(stack), stack)
      ensures rc != Again
    {
      hide Append, Overlay, LineEnd, Find, IntValue;
      ShapeTop(Conf());
      hide Shape;
      LineEndIs(input);
      var n, bufSize := |stack| - 1, |input|;
      if bufSize < 2 { return Err(Premature); }
      LineEndRange(input);
      var f := stack[n];
      var p2 := FastStrStr(input, CRLF);
      var consume := if p2 < 0 then if input[bufSize - 1] == 13 then bufSize - 1 else bufSize else p2 + 2;
      var remain := if p2 < 0 then consume else consume - 2;
      var bufs, storeLen := CopyPieces(f.bufs, f.storeLen, input, remain);
      stack := stack[n := f.(bufs := bufs, storeLen := storeLen)];
      input := input[consume..];
      rc := if p2 < 0 then Err(Premature) else Over(Text(f.kind, bufs, storeLen));
    }

    /** r_build_simple_string, for simple and error strings. */
    method BuildSimpleString(depth: int, ty: Type) returns (rc: Rc)
      requires Calls(depth, ty) && (ty == TSimple || ty == TError)
      modifies this
      ensures Built(old(Conf()), depth, ty, rc)
    {
      hide RunTo, Step, Rank;
      ghost var c0 := Conf();
      var ok := Alloc(depth, ty);
      if !ok { return Err(TooDeep); }
      LeafOnTop(Conf(), depth);
      rc := Again;
      while rc == Again
        invariant |stack| == depth + 1 && stack[..depth] == c0.stack[..depth]
        invariant rc == Again ==> Valid() && stack[depth].SimpleFrame?
        invariant rc.Err? && rc.why != BadBulk ==> Valid()
        invariant rc.Over? ==> Shape(Popped(Conf(), rc.r))
        invariant Loop(RunTo(c0, depth), depth, Conf(), rc)
        decreases rc == Again, |input|, Rank(Conf())
      {
        ghost var c := Conf();
        if stack[depth].started {
          rc := SimplePlain();
        } else {
          SimpleInit();
        }
        Turn(c, Conf(), depth, rc);
      }
      if rc.Over? { stack := stack[..|stack| - 1]; }
    }

    /** __build_simple_string_init. */
    method SimpleInit()
      requires Valid() && stack != [] && Top(Conf()).SimpleFrame? && !Top(Conf()).started
      modifies this`stack
      ensures Stepped(old(Conf()), Conf(), Again)
      ensures OnlyTop(old(stack), stack)
      ensures Top(Conf()).SimpleFrame?
    {
      var n := |stack| - 1;
      stack := stack[n := SimpleFrame(stack[n].kind, true, 0, [[]])];
    }

    /** __build_array_len. */
    method ArrayStoreLen() returns (rc: Rc)
      requires Valid() && stack != [] && Top(Conf()).ArrayFrame? && Top(Conf()).state == ALen
      modifies this
      ensures Stepped(old(Conf()), Conf(), rc)
      ensures OnlyTop(old(stack), stack)
      ensures rc == Again ==> Top(Conf()).ArrayFrame?
    {
      rc := BuildInteger();
      if rc.Over? {
        var len, n := rc.r.v, |stack| - 1;
        if len > 0 {
          stack := stack[n := stack[n].(state := AType, len := len % U32)];
          rc := Again;
        } else {
          rc := Over(if len < 0 then Null(true) else Arr([]));
        }
      }
    }

    /** __build_reply_type and __build_array_element_type. */
    method ReadType() returns (rc: Rc)
      requires Valid() && stack != [] && (Top(Conf()).TopFrame? || Top(Conf()).ArrayFrame?)
      requires !Waiting(Top(Conf())) && (Top(Conf()).ArrayFrame? ==> Top(Conf()).state == AType)
      modifies this
      ensures Stepped(old(Conf()), Conf(), rc)
      ensures rc == Again ==> (Top(Conf()).ArrayFrame? <==> old(Top(Conf()).ArrayFrame?))
      ensures OnlyTop(old(stack), stack)
    {
      if input == [] { return Err(Premature); }
      var ty := TypeOf(input[0]);
      if ty.None? { return Err(BadLeading); }
      var n := |stack| - 1;
      var f := stack[n];
      stack := stack[n := if f.TopFrame? then TopFrame(true, ty.value) else f.(state := AElem, elemType := ty.value)];
      input := input[1..];
      rc := Again;
    }

    /** Content for the builder below: the switch of __build_reply_content and of
        __build_array_element. */
    method BuildContent(depth: int, ty: Type) returns (rc: Rc)
      requires Calls(depth, ty)
      modifies this
      ensures Built(old(Conf()), depth, ty, rc)
      decreases SLOTS - depth, 3
    {
      match ty
      case TSimple => rc := BuildSimpleString(depth, ty);
      case TError => rc := BuildSimpleString(depth, ty);
      case TInteger => rc := BuildNumber(depth);
      case TBulk => rc := BuildBulkString(depth);
      case TArray => rc := BuildArray(depth);
    }

    /** r_build_integer as content; it has no builder of its own. */
    method BuildNumber(depth: int) returns (rc: Rc)
      requires Calls(depth, TInteger)
      modifies this
      ensures Built(old(Conf()), depth, TInteger, rc)
    {
      ghost var c := Conf();
      AskedAt(c, depth);
      hide LineEnd, IntValue, RunTo;
      RunToUnfolds(c, depth);
      rc := BuildInteger();
      if rc.Over? { RunToStops(Step(c).c, depth); }
    }

    /** __build_array_element. */
    method ArrayElement(depth: int) returns (rc: Rc)
      requires 0 < depth < |stack| && stack[depth].ArrayFrame? && Calls(depth + 1, stack[depth].elemType)
      modifies this
      ensures Loop(RunTo(old(Conf()), depth), depth, Conf(), rc)
      ensures rc == Again ==> Before(old(Conf()), Conf())
      ensures rc.Err? && rc.why != BadBulk ==> Valid()
      ensures rc == Again ==> Valid() && |stack| == depth + 1
      ensures rc.Over? ==> |stack| == depth + 1 && Shape(Popped(Conf(), rc.r))
      ensures !rc.Err? ==> stack[..depth] == old(stack[..depth]) && stack[depth].ArrayFrame?
      decreases SLOTS - depth, 0
    {
      hide RunTo, Rank, Step, Shape;
      ghost var c := Conf();
      rc := BuildContent(depth + 1, stack[depth].elemType);
      RunToSplit(c, depth);
      if rc.Over? {
        ghost var cr := Conf().(ret := Some(rc.r));
        RunToBefore(c, depth + 1);
        var f := stack[depth];
        var elems := f.elems + [rc.r];
        if |elems| + 1 <= f.len {
          stack := stack[depth := f.(state := AType, elems := elems)];
          rc := Again;
        } else {
          stack := stack[depth := f.(elems := elems)];
          rc := Over(Arr(elems));
        }
        ElementDelivered(cr, depth);
      }
    }

    /** r_build_array. */
    method BuildArray(depth: int) returns (rc: Rc)
      requires Calls(depth, TArray)
      modifies this
      ensures Built(old(Conf()), depth, TArray, rc)
      decreases SLOTS - depth, 2
    {
      hide RunTo, Step, Rank;
      ghost var c0 := Conf();
      var ok := Alloc(depth, TArray);
      if !ok { return Err(TooDeep); }
      rc := Again;
      while rc == Again
        invariant !rc.Err? ==> |stack| > depth && stack[..depth] == c0.stack[..depth]
        invariant rc == Again ==> Valid() && stack[depth].ArrayFrame?
        invariant rc.Err? && rc.why != BadBulk ==> Valid()
        invariant rc.Over? ==> |stack| == depth + 1 && Shape(Popped(Conf(), rc.r))
        invariant Loop(RunTo(c0, depth), depth, Conf(), rc)
        decreases rc == Again, |input|, Rank(Conf())
      {
        rc := ArrayTurn(depth);
      }
      if rc.Over? { stack := stack[..|stack| - 1]; }
    }

    /** The switch inside the loop of r_build_array. */
    method ArrayTurn(depth: int) returns (rc: Rc)
      requires Valid() && 0 < depth < |stack| && stack[depth].ArrayFrame?
      modifies this
      ensures Loop(RunTo(old(Conf()), depth), depth, Conf(), rc)
      ensures rc == Again ==> Before(old(Conf()), Conf()) && Valid() && |stack| == depth + 1 && stack[depth].ArrayFrame?
      ensures rc.Err? && rc.why != BadBulk ==> Valid()
      ensures rc.Over? ==> |stack| == depth + 1 && Shape(Popped(Conf(), rc.r))
      ensures !rc.Err? ==> stack[..depth] == old(stack[..depth])
      decreases SLOTS - depth, 1
    {
      hide RunTo, Step, Rank;
      ghost var c := Conf();
      AskedAt(c, depth + 1);
      match stack[depth].state {
        case ALen =>
          rc := ArrayStoreLen();
          Turn(c, Conf(), depth, rc);
        case AType =>
          rc := ReadType();
          Turn(c, Conf(), depth, rc);
        case AElem =>
          rc := ArrayElement(depth);
      }
    }

    /** r_build_reply: the main builder. */
    method BuildReply() returns (rc: Rc)
      requires Valid()
      modifies this
      ensures Did(RunTo(old(Conf()), 0), rc) && rc != Again
      ensures rc != Err(BadBulk) ==> Valid()
      ensures rc.Over? ==> stack == []
    {
      hide RunTo, Step, Rank;
      ghost var c0 := Conf();
      if stack == [] {
        Starts(c0);
        stack := [TopFrame(false, TInteger)];
      }
      rc := Again;
      while rc == Again
        invariant !rc.Err? ==> stack != []
        invariant rc != Err(BadBulk) && !rc.Over? ==> Valid()
        invariant rc.Over? ==> |stack| == 1
        invariant Loop(RunTo(c0, 0), 0, Conf(), rc)
        decreases rc == Again, |input|, Rank(Conf())
      {
        ghost var c := Conf();
        if stack[0].typed {
          rc := BuildContent(1, stack[0].ty);
          RunToSplit(c, 0);
          if rc.Over? { TopDelivered(Conf().(ret := Some(rc.r))); }
        } else {
          AskedAt(c, 1);
          rc := ReadType();
          Turn(c, Conf(), 0, rc);
        }
      }
      if rc.Over? { stack := stack[..|stack| - 1]; }
    }

    /** redis_reply_parse_once, with a callback that always accepts. */
    method ParseOnce() returns (why: Stop)
      requires Valid()
      modifies this
      ensures Run(old(Conf())) == Halt(Conf(), why)
      ensures why != BadBulk ==> Valid()
    {
      hide RunTo, Step, Rank;
      ghost var c0 := Conf();
      var rc := Again;
      while !rc.Err?
        invariant rc != Err(BadBulk) ==> Valid()
        invariant RunTo(c0, -1) == if rc.Err? then Halt(Conf(), rc.why) else RunTo(Conf(), -1)
        decreases !rc.Err?, |input|, Rank(Conf())
      {
        ghost var c := Conf();
        rc := BuildReply();
        RunToSplit(c, -1);
        if rc.Over? {
          HandedOver(c, Conf().(ret := Some(rc.r)));
          out := out + [rc.r];
        }
      }
      why := rc.why;
    }

    /** Bytes arrive and are parsed. */
    method Receive(bytes: seq<int>) returns (why: Stop)
      requires Valid()
      modifies this
      ensures Run(old(Conf()).(input := old(input) + bytes)) == Halt(Conf(), why)
      ensures why != BadBulk ==> Valid()
    {
      input := input + bytes;
      why := ParseOnce();
    }
  }
}
