/** The decoder of DUMP payloads in the form of the source: a function per builder, each working in
    a loop, all returning when the input runs out and finding their place again through the builder
    stack.  Every function does what the machine of `RdbMachine` does until its builder is done. */
module RdbParser {
  import opened Wrappers
  import opened RdbMachine
  import Z = Ziplist
  import Lzf

  const CAPACITY: int := 4096

  /** OB_OVER with what was built, OB_AGAIN, and the errors. */
  datatype Rc = Over(r: Ret) | Again | Err(why: Stop)

  // ---------------------------------------------------------------- the machine, level by level

  /** Go on to depth d from an intermediate result. */
  function Onward(r: Next, d: int): Next { if r.Go? then RunTo(r.c, d) else r }

  lemma RunToUnfolds(c: Config, d: int)
    requires c.ret == Nothing || |c.stack| > d
    ensures RunTo(c, d) == Onward(Step(c), d)
  {
    hide Step, Rank;
  }

  lemma RunToStops(c: Config, d: int)
    requires c.ret != Nothing && |c.stack| <= d
    ensures RunTo(c, d) == Go(c)
  {
  }

  /** Finishing the builders above a level comes first. */
  lemma {:induction false} RunToSplit(c: Config, d: int)
    ensures RunTo(c, d) == Onward(RunTo(c, d + 1), d)
    decreases |c.input|, Rank(c)
  {
    hide Step, Rank, RunTo;
    if c.ret != Nothing && |c.stack| <= d + 1 {
      RunToStops(c, d + 1);
    } else {
      StepDecreases(c);
      RunToUnfolds(c, d);
      RunToUnfolds(c, d + 1);
      if Step(c).Go? { RunToSplit(Step(c).c, d); }
    }
  }

  lemma {:induction false} RunToBefore(c: Config, d: int)
    requires (c.ret == Nothing || |c.stack| > d) && RunTo(c, d).Go?
    ensures Before(c, RunTo(c, d).c)
    decreases |c.input|, Rank(c)
  {
    hide Step, Rank, RunTo;
    StepDecreases(c);
    RunToUnfolds(c, d);
    var c' := Step(c).c;
    if c'.ret != Nothing && |c'.stack| <= d {
      RunToStops(c', d);
    } else {
      RunToBefore(c', d);
    }
  }

  lemma {:induction false} RunToKeepsShape(c: Config, d: int)
    requires Shape(c) && RunTo(c, d).Go?
    ensures Shape(RunTo(c, d).c)
    decreases |c.input|, Rank(c)
  {
    hide Step, Rank, RunTo, Shape;
    if c.ret != Nothing && |c.stack| <= d {
      RunToStops(c, d);
    } else {
      StepDecreases(c);
      RunToUnfolds(c, d);
      StepKeepsShape(c);
      RunToKeepsShape(Step(c).c, d);
    }
  }

  function Popped(c: Config, r: Ret): Config
    requires c.stack != []
  {
    c.(stack := c.stack[..|c.stack| - 1], ret := r)
  }

  /** What one turn of a builder's loop does: a step of the machine, except that a finished builder
      is popped only behind the loop. */
  predicate Stepped(c: Config, c': Config, rc: Rc) {
    var r := Step(c);
    if r.Halt? then rc == Err(r.why) && c' == r.c
    else if r.c.ret == Nothing then rc == Again && c' == r.c
    else rc == Over(r.c.ret) && |c'.stack| == |c.stack| > 0 && Popped(c', r.c.ret) == r.c
  }

  /** In the loop of the builder at a depth: what is left of a run of the machine to that depth. */
  predicate Loop(r: Next, depth: int, c: Config, rc: Rc) {
    match rc
    case Again => r == RunTo(c, depth) && Shape(c) && |c.stack| > depth
    case Err(why) => r == Halt(c, why)
    case Over(v) => |c.stack| == depth + 1 > 0 && v != Nothing && r == Go(Popped(c, v)) && Shape(Popped(c, v))
  }

  /** One turn of a loop whose own builder is on top. */
  lemma Turn(c: Config, c': Config, depth: int, rc: Rc)
    requires c.ret == Nothing && |c.stack| == depth + 1 > 0 && Shape(c) && Stepped(c, c', rc)
    requires rc == Again ==> |c'.stack| > depth
    ensures Loop(RunTo(c, depth), depth, c', rc)
    ensures rc == Again ==> Before(c, c')
  {
    hide Step, Shape, RunTo, Rank;
    StepDecreases(c);
    RunToUnfolds(c, depth);
    if Step(c).Go? { StepKeepsShape(c); }
    if rc.Over? { RunToStops(Step(c).c, depth); }
  }

  /** A turn that called another builder, which has finished: delivery is the machine's next step. */
  lemma Called(c: Config, depth: int)
    requires c.ret == Nothing && Shape(c) && RunTo(c, depth + 1).Go? && depth >= 0
    requires |RunTo(c, depth + 1).c.stack| == depth + 1
    ensures var cr := RunTo(c, depth + 1).c;
            && RunTo(c, depth) == Onward(Deliver(cr), depth) && Shape(cr)
            && (Deliver(cr).Go? ==> Before(c, Deliver(cr).c) && Shape(Deliver(cr).c))
  {
    hide RunTo, Shape, Rank, Deliver;
    var cr := RunTo(c, depth + 1).c;
    RunToSplit(c, depth);
    RunToBefore(c, depth + 1);
    RunToKeepsShape(c, depth + 1);
    RunToUnfolds(cr, depth);
    StepDecreases(cr);
    if Deliver(cr).Go? { StepKeepsShape(cr); }
  }

  lemma AskedAt(c: Config, i: int)
    requires Shape(c) && 0 < i
    ensures i < |c.stack| ==> Asked(c.stack[i - 1], c.stack[i])
  {
    hide Asked;
  }

  // ---------------------------------------------------------------- the decoder

  class RdbDecoder {
    var stack: seq<Frame>
    var input: seq<int>
    var out: seq<Object>

    ghost function Conf(): Config
      reads this
    {
      Config(stack, input, Nothing, out)
    }

    ghost predicate Valid()
      reads this
    {
      Shape(Conf())
    }

    constructor ()
      ensures Valid() && stack == [] && input == [] && out == []
    {
      stack, input, out := [], [], [];
    }

    /** The state after a builder was called for in state c. */
    ghost predicate Built(c: Config, depth: int, rc: Rc)
      requires 0 <= depth <= |c.stack|
      reads this
    {
      var r := RunTo(c, depth);
      if r.Go? then
        && rc == Over(r.c.ret) && Conf() == r.c.(ret := Nothing) && Valid()
        && stack == c.stack[..depth] && |stack| == depth
      else rc == Err(r.why) && Conf() == r.c
    }

    /** The builder below depth asks for a builder like g, which may be at work already. */
    ghost predicate Calls(depth: int, g: Frame)
      reads this
    {
      Valid() && 0 < depth <= |stack| && Asked(stack[depth - 1], g)
    }

    /** Only the top builder has changed. */
    ghost predicate OnlyTop(s: seq<Frame>)
      reads this
    {
      |stack| == |s| > 0 && stack[..|s| - 1] == s[..|s| - 1]
    }

    /** The first state of every builder but the main one: read a length. */
    method ReadLength(ghost c: Config) returns (rc: Rc)
      requires c == Conf() && c.stack != [] && ReadsLen(Top(c))
      modifies this
      ensures Stepped(c, Conf(), rc) && OnlyTop(c.stack) && !rc.Over? && SameKind(Top(Conf()), Top(c))
      ensures rc == Again ==> Top(Conf()) == Sized(Top(c), StoreLen(c.input).value.1, StoreLen(c.input).value.2)
    {
      StoreLenTakes(input);
      hide StoreLen;
      var l := StoreLen(input);
      if l.None? { return Err(Premature); }
      var n := |stack| - 1;
      stack, input := stack[..n] + [Sized(stack[n], l.value.1, l.value.2)], input[l.value.0..];
      rc := Again;
    }

    /** __build_string_plain and __build_lzf_string_lzf: take what is there, up to what is wanted. */
    method ReadData(ghost c: Config) returns (rc: Rc)
      requires c == Conf() && c.stack != [] && TakesData(Top(c))
      modifies this
      ensures Stepped(c, Conf(), rc) && OnlyTop(c.stack) && rc != Again && SameKind(Top(Conf()), Top(c))
    {
      DataSteps(c);
      hide Filled, Step, Stepped, SameKind;
      var n := |stack| - 1;
      var f := stack[n];
      var want := Target(f) - |f.got|;
      if want < 0 || (f.LzfFrame? && f.cLen == 0) { return Err(Outside); }
      var consume := if |input| > want then want else |input|;
      var g := f.(got := f.got + input[..consume]);
      var v := Filled(g);
      stack, input := stack[..n] + [g], input[consume..];
      rc := if want != consume then Err(Premature) else if v.None? then Err(BadLzf) else Over(RetValue(v.value));
      assert Conf() == Took(c, consume);
    }

    /** stack_alloc_object_builder. */
    method Alloc(depth: int, g: Frame)
      requires Calls(depth, g) && g in {NEW_STR, NEW_LZF, NEW_LIST, NEW_HASH}
      requires |stack| == depth ==> Step(Conf()) == Go(Push(Conf(), g))
      modifies this
      ensures Valid() && |stack| > depth && stack[..depth] == old(stack)[..depth]
              && Asked(stack[depth - 1], stack[depth])
      ensures RunTo(Conf(), depth) == RunTo(old(Conf()), depth) && input == old(input) && out == old(out)
    {
      hide RunTo;
      if |stack| == depth {
        ghost var c := Conf();
        RunToUnfolds(c, depth);
        StepKeepsShape(c);
        hide Step;
        stack := stack + [g];
      } else {
        AskedAt(Conf(), depth);
      }
    }

    /** What one turn of the builder at a depth has done. */
    ghost predicate Turned(c: Config, depth: int, rc: Rc)
      requires 0 <= depth < |c.stack|
      reads this
    {
      && Loop(RunTo(c, depth), depth, Conf(), rc)
      && (rc == Again ==> Before(c, Conf()))
      && (!rc.Err? ==> |stack| > depth && stack[..depth] == c.stack[..depth] && SameKind(stack[depth], c.stack[depth]))
    }

    /** In the loop of the builder at a depth, called for in state c. */
    ghost predicate InLoop(c: Config, depth: int, g: Frame, rc: Rc)
      requires 0 <= depth <= |c.stack|
      reads this
    {
      && Loop(RunTo(c, depth), depth, Conf(), rc)
      && (!rc.Err? ==> |stack| > depth && stack[..depth] == c.stack[..depth] && SameKind(stack[depth], g))
    }

    /** The builder is there and its loop begins. */
    method Enter(depth: int, g: Frame)
      requires Calls(depth, g) && g in {NEW_STR, NEW_LZF, NEW_LIST, NEW_HASH}
      requires |stack| == depth ==> Step(Conf()) == Go(Push(Conf(), g))
      modifies this
      ensures InLoop(old(Conf()), depth, g, Again)
    {
      hide RunTo, Step, Rank;
      Alloc(depth, g);
      KindAsked(stack[depth - 1], stack[depth], g);
    }

    /** Behind the loop a finished builder is popped. */
    method Finish(ghost c: Config, depth: int, ghost g: Frame, rc: Rc)
      requires 0 <= depth <= |c.stack| && InLoop(c, depth, g, rc) && rc != Again
      modifies this`stack
      ensures Built(c, depth, rc)
    {
      hide RunTo;
      if rc.Over? {
        TakenAt(Popped(Conf(), rc.r));
        stack := stack[..|stack| - 1];
      }
    }

    /** build_lzf_string_value. */
    method BuildLzf(depth: int) returns (rc: Rc)
      requires Calls(depth, NEW_LZF) && (|stack| == depth ==> Step(Conf()) == Go(Push(Conf(), NEW_LZF)))
      modifies this
      ensures Built(old(Conf()), depth, rc)
    {
      hide RunTo, Step, Shape, Rank, Asked;
      ghost var c0 := Conf();
      Enter(depth, NEW_LZF);
      rc := Again;
      while rc == Again
        invariant InLoop(c0, depth, NEW_LZF, rc)
        decreases rc == Again, |input|, Rank(Conf())
      {
        rc := LzfTurn(depth);
      }
      Finish(c0, depth, NEW_LZF, rc);
    }

    method LzfTurn(depth: int) returns (rc: Rc)
      requires Valid() && 0 < depth < |stack| && stack[depth].LzfFrame?
      modifies this
      ensures Turned(old(Conf()), depth, rc)
    {
      ghost var c := Conf();
      AskedAt(c, depth + 1);
      hide RunTo, Rank, Filled, Step;
      if stack[depth].lzfState == LzfData {
        rc := ReadData(c);
      } else {
        rc := ReadLength(c);
      }
      Turn(c, Conf(), depth, rc);
    }

    /** build_string_value. */
    method BuildString(depth: int) returns (rc: Rc)
      requires Calls(depth, NEW_STR) && (|stack| == depth ==> Step(Conf()) == Go(Push(Conf(), NEW_STR)))
      modifies this
      ensures Built(old(Conf()), depth, rc)
    {
      hide RunTo, Step, Shape, Rank, Asked;
      ghost var c0 := Conf();
      Enter(depth, NEW_STR);
      rc := Again;
      while rc == Again
        invariant InLoop(c0, depth, NEW_STR, rc)
        decreases rc == Again, |input|, Rank(Conf())
      {
        rc := StrTurn(depth);
      }
      Finish(c0, depth, NEW_STR, rc);
    }

    method StrTurn(depth: int) returns (rc: Rc)
      requires Valid() && 0 < depth < |stack| && stack[depth].StrFrame?
      modifies this
      ensures Turned(old(Conf()), depth, rc)
    {
      ghost var c := Conf();
      AskedAt(c, depth + 1);
      match stack[depth].strState {
        case StrLen =>
          rc := ReadLength(c);
          hide *;
          Turn(c, Conf(), depth, rc);
        case StrEnc =>
          rc := ReadEncoded(depth);
        case StrPlain =>
          rc := ReadData(c);
          hide *;
          Turn(c, Conf(), depth, rc);
      }
    }

    /** __build_string_enc. */
    method ReadEncoded(depth: int) returns (rc: Rc)
      requires Valid() && 0 < depth < |stack| && stack[depth].StrFrame? && stack[depth].strState == StrEnc
      modifies this
      ensures Turned(old(Conf()), depth, rc)
    {
      ghost var c := Conf();
      var enc := stack[depth].storeLen;
      AskedAt(c, depth + 1);
      if enc == 3 {
        rc := Inflate(depth);
      } else {
        rc := ReadInt(enc);
        hide RunTo, Shape, Rank, Step;
        Turn(c, Conf(), depth, rc);
      }
    }

    method Inflate(depth: int) returns (rc: Rc)
      requires Valid() && 0 < depth < |stack| && stack[depth].StrFrame? && Asked(stack[depth], NEW_LZF)
      modifies this
      ensures Turned(old(Conf()), depth, rc)
    {
      ghost var c := Conf();
      TopAsks(c, depth + 1);
      hide RunTo, Shape, Rank, Asked, Step, Loop;
      rc := BuildLzf(depth + 1);
      if rc.Over? {
        StrPasses(c, Conf(), depth, rc.r);
      } else {
        RunToSplit(c, depth);
        FailsOn(c, depth, Conf(), rc);
      }
    }

    /** An integer encoding; any other is an error. */
    method ReadInt(enc: int) returns (rc: Rc)
      requires Valid() && stack != [] && Top(Conf()).StrFrame? && Top(Conf()).strState == StrEnc
               && enc == Top(Conf()).storeLen != 3
      modifies this`input
      ensures Stepped(old(Conf()), Conf(), rc) && rc != Again
    {
      hide IntOf;
      if !(0 <= enc <= 2) { return Err(BadEncoding); }
      var n := IntWidth(enc);
      if |input| < n { return Err(Premature); }
      rc := Over(RetValue(Int(IntOf(input[..n], enc))));
      input := input[n..];
    }

    /** build_list_or_set_value. */
    method BuildList(depth: int) returns (rc: Rc)
      requires Calls(depth, NEW_LIST) && (|stack| == depth ==> Step(Conf()) == Go(Push(Conf(), NEW_LIST)))
      modifies this
      ensures Built(old(Conf()), depth, rc)
    {
      hide RunTo, Step, Shape, Rank, Asked;
      ghost var c0 := Conf();
      Enter(depth, NEW_LIST);
      rc := Again;
      while rc == Again
        invariant InLoop(c0, depth, NEW_LIST, rc)
        decreases rc == Again, |input|, Rank(Conf())
      {
        rc := ListTurn(depth);
      }
      Finish(c0, depth, NEW_LIST, rc);
    }

    /** A list without room for another element turns forever in the source. */
    method ListTurn(depth: int) returns (rc: Rc)
      requires Valid() && 0 < depth < |stack| && stack[depth].ListFrame?
      modifies this
      ensures Turned(old(Conf()), depth, rc)
    {
      ghost var c := Conf();
      AskedAt(c, depth + 1);
      var f := stack[depth];
      if !f.sized {
        rc := ReadLength(c);
        hide RunTo, Shape, Rank, Step;
        Turn(c, Conf(), depth, rc);
      } else if |f.vals| < f.storeLen {
        rc := ListElement(depth);
      } else {
        hide RunTo, Shape, Rank;
        rc := Err(Forever);
        Turn(c, c, depth, rc);
      }
    }

    /** __build_list_or_set_loop_val. */
    method ListElement(depth: int) returns (rc: Rc)
      requires Valid() && 0 < depth < |stack| && stack[depth].ListFrame? && Asked(stack[depth], NEW_STR)
      modifies this
      ensures Turned(old(Conf()), depth, rc)
    {
      ghost var c := Conf();
      StrAsked(c, depth);
      hide RunTo, Shape, Rank, Asked, Step;
      rc := BuildString(depth + 1);
      if rc.Over? { rc := ListGot(c, depth, rc.r); } else { RunToSplit(c, depth); }
    }

    method ListGot(ghost c: Config, depth: int, r: Ret) returns (rc: Rc)
      requires c.ret == Nothing && Shape(c) && 0 < depth < |c.stack| && c.stack[depth].ListFrame?
      requires RunTo(c, depth + 1) == Go(Conf().(ret := r)) && stack == c.stack[..depth + 1]
      modifies this`stack
      ensures Turned(c, depth, rc)
    {
      hide RunTo, Shape, Rank;
      var f := stack[depth];
      ListTurns(c, Conf(), depth, f, r);
      hide Loop, Before;
      var vals := f.vals + [r.v];
      if |vals| < f.storeLen {
        stack := stack[..depth] + [ListFrame(true, f.storeLen, vals)];
        rc := Again;
      } else {
        rc := Over(RetObject(ListObject(vals)));
      }
    }

    /** build_hash_or_zset_value. */
    method BuildHash(depth: int) returns (rc: Rc)
      requires Calls(depth, NEW_HASH) && (|stack| == depth ==> Step(Conf()) == Go(Push(Conf(), NEW_HASH)))
      modifies this
      ensures Built(old(Conf()), depth, rc)
    {
      hide RunTo, Step, Shape, Rank, Asked;
      ghost var c0 := Conf();
      Enter(depth, NEW_HASH);
      rc := Again;
      while rc == Again
        invariant InLoop(c0, depth, NEW_HASH, rc)
        decreases rc == Again, |input|, Rank(Conf())
      {
        rc := HashTurn(depth);
      }
      Finish(c0, depth, NEW_HASH, rc);
    }

    method HashTurn(depth: int) returns (rc: Rc)
      requires Valid() && 0 < depth < |stack| && stack[depth].HashFrame?
      modifies this
      ensures Turned(old(Conf()), depth, rc)
    {
      ghost var c := Conf();
      AskedAt(c, depth + 1);
      var f := stack[depth];
      if f.hashState == HashLen {
        rc := ReadLength(c);
        hide RunTo, Shape, Rank, Step;
        Turn(c, Conf(), depth, rc);
      } else if |f.kvs| < f.storeLen {
        rc := HashElement(depth);
      } else {
        hide RunTo, Shape, Rank;
        stack := stack[..depth] + [HashFrame(HashVal, f.storeLen, f.key, f.kvs)];
        rc := if f.hashState == HashKey then Again else Err(Forever);
        Turn(c, Conf(), depth, rc);
      }
    }

    /** __build_hash_or_zset_loop_key and __build_hash_or_zset_loop_val. */
    method HashElement(depth: int) returns (rc: Rc)
      requires Valid() && 0 < depth < |stack| && stack[depth].HashFrame? && Asked(stack[depth], NEW_STR)
      modifies this
      ensures Turned(old(Conf()), depth, rc)
    {
      ghost var c := Conf();
      StrAsked(c, depth);
      hide RunTo, Shape, Rank, Asked, Step;
      rc := BuildString(depth + 1);
      if rc.Over? { rc := HashGot(c, depth, rc.r); } else { RunToSplit(c, depth); }
    }

    method HashGot(ghost c: Config, depth: int, r: Ret) returns (rc: Rc)
      requires c.ret == Nothing && Shape(c) && 0 < depth < |c.stack| && c.stack[depth].HashFrame?
      requires RunTo(c, depth + 1) == Go(Conf().(ret := r)) && stack == c.stack[..depth + 1]
      modifies this`stack
      ensures Turned(c, depth, rc)
    {
      hide RunTo, Shape, Rank;
      var f := stack[depth];
      HashTurns(c, Conf(), depth, f, r);
      hide Loop, Before;
      var kvs := f.kvs + [(f.key, r.v)];
      if f.hashState == HashKey {
        stack := stack[..depth] + [HashFrame(HashVal, f.storeLen, r.v, f.kvs)];
        rc := Again;
      } else if |kvs| < f.storeLen {
        stack := stack[..depth] + [HashFrame(HashKey, f.storeLen, f.key, kvs)];
        rc := Again;
      } else {
        rc := Over(RetObject(HashObject(kvs)));
      }
    }

    /** build_object_detail_kv_val. */
    method BuildContent(ty: int) returns (rc: Rc)
      requires Valid() && stack != [] && stack[0] == DumpFrame(true, ty)
      modifies this
      ensures Built(old(Conf()), 1, rc)
    {
      ghost var c := Conf();
      AskedAt(c, 1);
      if IsString(ty) {
        rc := BuildString(1);
      } else if ty == 1 || ty == 2 {
        rc := BuildList(1);
      } else if ty == 3 || ty == 4 {
        rc := BuildHash(1);
      } else {
        hide RunTo;
        RunToUnfolds(c, 1);
        rc := Err(if ty == 9 || ty == 11 then Outside else BadType);
      }
    }

    /** build_dumped_data with a callback that always accepts: one payload, or as much of it as is
        there. */
    method BuildDumped() returns (rc: Rc)
      requires Valid()
      modifies this
      ensures rc.Err? ==> Run(old(Conf())) == Halt(Conf(), rc.why)
      ensures rc.Over? ==>
                Run(old(Conf())) == Run(Conf()) && stack == [] && |out| == |old(out)| + 1 && Before(old(Conf()), Conf())
      ensures rc != Again
    {
      ghost var c0 := Conf();
      hide Run, Step, Shape, Rank, Before;
      if stack == [] {
        Starts(c0);
        stack := [DumpFrame(false, 0)];
      } else {
        MainIsFirst(c0);
      }
      rc := Again;
      while rc == Again
        invariant !rc.Err? ==> Run(c0) == Run(Conf())
        invariant rc == Again ==>
                    Valid() && stack != [] && stack[0].DumpFrame? && out == c0.out
                    && (Conf() == c0 || Before(c0, Conf()))
        invariant rc.Err? ==> Run(c0) == Halt(Conf(), rc.why)
        invariant rc.Over? ==> stack == [] && |out| == |c0.out| + 1 && Before(c0, Conf())
        decreases rc == Again, |input|, Rank(Conf())
      {
        ghost var c := Conf();
        if !stack[0].typed {
          rc := ReadType(c);
        } else {
          rc := BuildObject(c);
        }
        BeforeChains(c0, c, Conf());
      }
    }

    /** __build_dumped_data_object_type. */
    method ReadType(ghost c: Config) returns (rc: Rc)
      requires c == Conf() && Valid() && stack != [] && stack[0].DumpFrame? && !stack[0].typed
      modifies this`stack, this`input
      ensures rc == Again ==>
                Run(c) == Run(Conf()) && Before(c, Conf()) && Valid() && stack != [] && stack[0].DumpFrame?
      ensures rc.Err? ==> Run(c) == Halt(Conf(), rc.why)
      ensures !rc.Over?
    {
      AskedAt(c, 1);
      hide Run;
      RunUnfolds(c);
      if input == [] { return Err(Premature); }
      assert SetTop(Take(c, 1), DumpFrame(true, input[0])).stack == [DumpFrame(true, input[0])];
      StepKeepsShape(c);
      stack, input := [DumpFrame(true, input[0])], input[1..];
      rc := Again;
    }

    /** The value, and the callback. */
    method BuildObject(ghost c: Config) returns (rc: Rc)
      requires c == Conf() && Valid() && stack != [] && stack[0].DumpFrame? && stack[0].typed
      modifies this
      ensures rc.Over? ==> Run(c) == Run(Conf()) && Before(c, Conf()) && stack == [] && |out| == |c.out| + 1
      ensures rc.Err? ==> Run(c) == Halt(Conf(), rc.why)
      ensures rc != Again
    {
      var f := stack[0];
      RunToKeepsOut(c, 1);
      rc := BuildContent(f.ty);
      hide Run, RunTo, Shape, Rank;
      SplitRun(c, 1);
      if rc.Over? {
        ghost var cr := Conf().(ret := rc.r);
        RunToBefore(c, 1);
        Handed(cr, f);
        var o := LoadObject(f.ty, rc.r);
        if o.None? { return Err(Outside); }
        out := out + [o.value];
        stack := [];
        BeforeChains(c, cr, Conf());
      }
    }

    /** The object for the callback; strings of the ziplist types are loaded item by item. */
    method LoadObject(ty: int, r: Ret) returns (o: Option<Object>)
      requires r != Nothing
      ensures o == if r.RetObject? then Some(r.o) else ObjectOf(ty, r.v)
    {
      if r.RetObject? { return Some(r.o); }
      if ty == 0 { return Some(StrObject(r.v)); }
      if r.v.Int? || !Z.WalkFrom(r.v.s, Z.HEADER_SIZE).Some? { return None; }
      if ty == 10 {
        var items, size := Z.LoadList(r.v.s);
        o := Some(ListObject(ValuesOfItems(items)));
      } else if |Z.WalkFrom(r.v.s, Z.HEADER_SIZE).value| % 2 == 1 {
        o := None;
      } else {
        var kvs, size := Z.LoadHash(r.v.s);
        PairsOfFlat(kvs);
        o := Some(HashObject(ValuePairs(kvs)));
      }
    }

    /** rdb_parse_dumped_data_once.  The source goes on forever after an error. */
    method ParseOnce() returns (why: Stop)
      requires Valid()
      modifies this
      ensures Run(old(Conf())) == Halt(Conf(), why)
    {
      hide Run, Shape, Rank;
      ghost var c0 := Conf();
      var rc := Again;
      while !rc.Err?
        invariant if rc.Err? then Run(c0) == Halt(Conf(), rc.why) else Run(c0) == Run(Conf()) && Valid()
        decreases !rc.Err?, |input|, Rank(Conf())
      {
        rc := BuildDumped();
        if rc.Over? { NoBuilders(Conf()); }
      }
      why := rc.why;
    }

    /** rdb_parse_dumped_data: the payload without version and checksum is fed through the input
        buffer, whose free space bounds each piece.  Less than five bytes ever wait in the buffer, so
        every piece is longer than nothing and the loop ends. */
    method ParseDumpedData(s: seq<int>) returns (why: Stop)
      requires |s| > 10
      modifies this
      ensures why == Premature ==> Run(Config([], s[..|s| - 10], Nothing, [])) == Halt(Conf(), why)
      ensures why != Premature ==>
                var r := Run(Config([], s[..|s| - 10], Nothing, []));
                r.why == why && r.c.out == out && r.c.stack == stack
    {
      hide Run, Shape;
      stack, input, out := [], [], [];
      ghost var payload := s[..|s| - 10];
      var remain, k := |s| - 10, 0;
      why := Premature;
      FirstRun();
      while remain > 0
        invariant 0 <= k && 0 <= remain && k + remain == |payload| && |input| < 5 && Valid() && why == Premature
        invariant if k == 0 then Conf() == Config([], [], Nothing, [])
                  else Run(Config([], payload[..k], Nothing, [])) == Halt(Conf(), Premature)
        decreases remain
      {
        var reserved := CAPACITY - |input|;
        var consume := if reserved < remain then reserved else remain;
        ghost var c, before := Conf(), payload[..k];
        input := input + s[k..k + consume];
        FeedStep(c, before, s[k..k + consume], k == 0);
        InputIsNoShape(c);
        PieceFollows(s, k, consume, |payload|);
        why := ParseOnce();
        k, remain := k + consume, remain - consume;
        if why != Premature {
          Errs(Config([], payload[..k], Nothing, []), payload[k..]);
          assert payload[..k] + payload[k..] == payload;
          return;
        }
      }
      assert payload[..k] == payload;
    }
  }

  /** A string builder hands on what its decompressing builder made. */
  lemma StrPasses(c: Config, c1: Config, depth: int, r: Ret)
    requires c.ret == Nothing && Shape(c) && 0 < depth < |c.stack| && c.stack[depth].StrFrame? && c1.ret == Nothing
    requires RunTo(c, depth + 1) == Go(c1.(ret := r)) && c1.stack == c.stack[..depth + 1]
    ensures Loop(RunTo(c, depth), depth, c1, Over(r))
  {
    hide RunTo, Shape, Step;
    Called(c, depth);
    var cr := RunTo(c, depth + 1).c;
    assert Top(cr) == c.stack[depth];
    PopsStr(cr);
    RunToStops(Popped(cr, cr.ret), depth);
    assert Popped(c1, r) == Popped(cr, r);
  }

  lemma FailsOn(c: Config, depth: int, c1: Config, rc: Rc)
    requires rc.Err? && RunTo(c, depth) == Halt(c1, rc.why)
    ensures Loop(RunTo(c, depth), depth, c1, rc)
  {
  }

  lemma PopsStr(cr: Config)
    requires Shape(cr) && cr.ret != Nothing && |cr.stack| > 1 && Top(cr).StrFrame?
    ensures Deliver(cr) == Go(Popped(cr, cr.ret)) && Shape(Popped(cr, cr.ret))
  {
    PopKeepsShape(cr, cr.ret);
  }

  /** The state of a builder after it took n bytes. */
  function Took(c: Config, n: int): Config
    requires 0 <= n <= |c.input| && c.stack != [] && (Top(c).StrFrame? || Top(c).LzfFrame?)
  {
    c.(stack := Below(c) + [Top(c).(got := Top(c).got + c.input[..n])], input := c.input[n..])
  }

  /** Taking what is there, up to what is wanted, is the machine's step. */
  lemma DataSteps(c: Config)
    requires c.ret == Nothing && c.stack != [] && TakesData(Top(c))
    ensures var f := Top(c);
            var want := Target(f) - |f.got|;
            if want < 0 || (f.LzfFrame? && f.cLen == 0) then Stepped(c, c, Err(Outside))
            else
              var n := if |c.input| > want then want else |c.input|;
              var v := Filled(f.(got := f.got + c.input[..n]));
              Stepped(c, Took(c, n), if want != n then Err(Premature) else if v.None? then Err(BadLzf)
                else Over(RetValue(v.value)))
    ensures SameKind(Top(c), Top(c)) && forall n | 0 <= n <= |c.input| :: SameKind(Top(Took(c, n)), Top(c))
  {
    StepIsData(c);
    hide Filled, Step;
    assert c.input[..|c.input|] == c.input && c.input[|c.input|..] == [];
  }

  predicate TakesData(f: Frame) { (f.StrFrame? && f.strState == StrPlain) || (f.LzfFrame? && f.lzfState == LzfData) }

  lemma StepIsData(c: Config)
    requires c.ret == Nothing && c.stack != [] && TakesData(Top(c))
    ensures Step(c) == Data(c)
  {
  }

  predicate SameKind(f: Frame, g: Frame) { Level(f) == Level(g) && (f.ListFrame? <==> g.ListFrame?) }

  lemma KindAsked(f: Frame, g: Frame, h: Frame)
    requires Asked(f, g) && Asked(f, h)
    ensures SameKind(g, h)
  {
  }

  lemma StrAsked(c: Config, depth: int)
    requires Shape(c) && c.ret == Nothing && 0 < depth < |c.stack| && Asked(c.stack[depth], NEW_STR)
    ensures |c.stack| == depth + 1 ==> Step(c) == Go(Push(c, NEW_STR))
  {
  }

  /** The builder called for is the one the machine pushes. */
  lemma TopAsks(c: Config, depth: int)
    requires Shape(c) && c.ret == Nothing && 0 < depth <= |c.stack|
    ensures |c.stack| == depth && Asked(Top(c), NEW_LZF) ==> Step(c) == Go(Push(c, NEW_LZF))
  {
  }

  lemma TakenAt(c: Config)
    requires Shape(c)
    ensures Shape(c.(ret := Nothing))
  {
  }

  /** The state after an element was finished above a list or hash, and what the machine does next. */
  lemma ElementTaken(c: Config, depth: int, f: Frame)
    requires c.ret == Nothing && Shape(c) && 0 < depth < |c.stack| && c.stack[depth] == f
             && (f.ListFrame? || f.HashFrame?)
    requires RunTo(c, depth + 1).Go? && RunTo(c, depth + 1).c.stack == c.stack[..depth + 1]
    ensures var cr := RunTo(c, depth + 1).c;
            && Top(cr) == f && Below(cr) == c.stack[..depth] && cr.ret.RetValue? && Takes(f, cr.ret) && Shape(cr)
            && RunTo(c, depth) == Onward(Deliver(cr), depth)
            && (Deliver(cr).Go? ==> Before(c, Deliver(cr).c) && Shape(Deliver(cr).c))
            && (Deliver(cr).Go? && Deliver(cr).c.ret != Nothing && |Deliver(cr).c.stack| <= depth ==>
                  RunTo(c, depth) == Go(Deliver(cr).c))
  {
    hide RunTo, Step;
    Called(c, depth);
    var cr := RunTo(c, depth + 1).c;
    assert Top(cr) == c.stack[depth] && Below(cr) == c.stack[..depth];
    if Deliver(cr).Go? && Deliver(cr).c.ret != Nothing && |Deliver(cr).c.stack| <= depth {
      RunToStops(Deliver(cr).c, depth);
    }
  }

  lemma ListTakes(c: Config, depth: int, f: Frame)
    requires c.ret == Nothing && Shape(c) && 0 < depth < |c.stack| && c.stack[depth] == f && f.ListFrame?
    requires RunTo(c, depth + 1).Go? && RunTo(c, depth + 1).c.stack == c.stack[..depth + 1]
    ensures var cr := RunTo(c, depth + 1).c;
            && cr.ret.RetValue?
            && var vals := f.vals + [cr.ret.v];
               var c' := if |vals| < f.storeLen
                 then cr.(stack := c.stack[..depth] + [ListFrame(true, f.storeLen, vals)], ret := Nothing)
                         else cr.(stack := c.stack[..depth], ret := RetObject(ListObject(vals)));
               && Before(c, c') && Shape(c')
               && RunTo(c, depth) == if |vals| < f.storeLen then RunTo(c', depth) else Go(c')
  {
    hide RunTo, Shape, Rank;
    ElementTaken(c, depth, f);
  }

  lemma HashTakes(c: Config, depth: int, f: Frame)
    requires c.ret == Nothing && Shape(c) && 0 < depth < |c.stack| && c.stack[depth] == f && f.HashFrame?
    requires RunTo(c, depth + 1).Go? && RunTo(c, depth + 1).c.stack == c.stack[..depth + 1]
    ensures var cr := RunTo(c, depth + 1).c;
            && cr.ret.RetValue? && f.hashState != HashLen
            && var kvs := f.kvs + [(f.key, cr.ret.v)];
               var below, last := c.stack[..depth], f.hashState == HashVal && |kvs| >= f.storeLen;
               var c' :=
                 if f.hashState == HashKey then
                   cr.(stack := below + [HashFrame(HashVal, f.storeLen, cr.ret.v, f.kvs)], ret := Nothing)
                 else if !last then
                   cr.(stack := below + [HashFrame(HashKey, f.storeLen, f.key, kvs)], ret := Nothing)
                 else cr.(stack := below, ret := RetObject(HashObject(kvs)));
               && Before(c, c') && Shape(c')
               && RunTo(c, depth) == if last then Go(c') else RunTo(c', depth)
  {
    hide RunTo, Shape, Rank;
    ElementTaken(c, depth, f);
  }

  /** The next state and return code of a list that has got an element, in the builder's own terms. */
  lemma ListTurns(c: Config, c1: Config, depth: int, f: Frame, r: Ret)
    requires c.ret == Nothing && Shape(c) && 0 < depth < |c.stack| && c.stack[depth] == f && f.ListFrame?
    requires RunTo(c, depth + 1) == Go(c1.(ret := r)) && c1.ret == Nothing && c1.stack == c.stack[..depth + 1]
    ensures r.RetValue?
    ensures var vals := f.vals + [r.v];
            var next := c1.(stack := c1.stack[..depth] + [ListFrame(true, f.storeLen, vals)]);
            if |vals| < f.storeLen then Loop(RunTo(c, depth), depth, next, Again) && Before(c, next)
            else Loop(RunTo(c, depth), depth, c1, Over(RetObject(ListObject(vals))))
  {
    hide RunTo, Shape, Rank;
    ListTakes(c, depth, f);
    assert c1.stack[..depth] == c.stack[..depth] && c1.stack[..|c1.stack| - 1] == c.stack[..depth];
  }

  lemma HashTurns(c: Config, c1: Config, depth: int, f: Frame, r: Ret)
    requires c.ret == Nothing && Shape(c) && 0 < depth < |c.stack| && c.stack[depth] == f && f.HashFrame?
    requires RunTo(c, depth + 1) == Go(c1.(ret := r)) && c1.ret == Nothing && c1.stack == c.stack[..depth + 1]
    ensures r.RetValue? && f.hashState != HashLen
    ensures var kvs := f.kvs + [(f.key, r.v)];
            var keyed := c1.(stack := c1.stack[..depth] + [HashFrame(HashVal, f.storeLen, r.v, f.kvs)]);
            var paired := c1.(stack := c1.stack[..depth] + [HashFrame(HashKey, f.storeLen, f.key, kvs)]);
            if f.hashState == HashKey then Loop(RunTo(c, depth), depth, keyed, Again) && Before(c, keyed)
            else if |kvs| < f.storeLen then Loop(RunTo(c, depth), depth, paired, Again) && Before(c, paired)
            else Loop(RunTo(c, depth), depth, c1, Over(RetObject(HashObject(kvs))))
  {
    hide RunTo, Shape, Rank;
    HashTakes(c, depth, f);
    assert c1.stack[..depth] == c.stack[..depth] && c1.stack[..|c1.stack| - 1] == c.stack[..depth];
  }

  // ---------------------------------------------------------------- the main builder

  lemma {:induction false} SplitRun(c: Config, d: int)
    requires d >= 0
    ensures var r := RunTo(c, d); Run(c) == if r.Go? then Run(r.c) else r
    decreases |c.input|, Rank(c)
  {
    hide Step, Rank, RunTo, Run;
    if c.ret != Nothing && |c.stack| <= d {
      RunToStops(c, d);
    } else {
      StepDecreases(c);
      RunUnfolds(c);
      RunToUnfolds(c, d);
      if Step(c).Go? { SplitRun(Step(c).c, d); }
    }
  }

  /** Only the main builder hands anything out. */
  lemma {:induction false} RunToKeepsOut(c: Config, d: int)
    requires Shape(c) && d >= 1 && c.stack != []
    ensures RunTo(c, d).c.out == c.out
    decreases |c.input|, Rank(c)
  {
    hide Rank, RunTo, Step, Shape;
    if c.ret != Nothing && |c.stack| <= d {
      RunToStops(c, d);
    } else {
      StepDecreases(c);
      RunToUnfolds(c, d);
      StepKeepsOut(c);
      if Step(c).Go? {
        StepKeepsShape(c);
        RunToKeepsOut(Step(c).c, d);
      }
    }
  }

  lemma StepKeepsOut(c: Config)
    requires Shape(c) && c.stack != [] && (c.ret == Nothing || |c.stack| > 1)
    ensures Step(c).c.out == c.out && (Step(c).Go? ==> Step(c).c.stack != [])
  {
    TopIsMain(c);
    hide StoreLen, IntOf, Filled, ObjectOf;
  }

  lemma Starts(c: Config)
    requires Shape(c) && c.stack == [] && c.ret == Nothing
    ensures var c' := c.(stack := [DumpFrame(false, 0)]); Run(c) == Run(c') && Shape(c') && Before(c, c')
  {
    hide Run;
    RunUnfolds(c);
    assert c.stack + [DumpFrame(false, 0)] == [DumpFrame(false, 0)];
  }

  lemma MainIsFirst(c: Config)
    requires Shape(c) && c.stack != []
    ensures c.stack[0].DumpFrame?
  {
  }

  lemma BeforeChains(a: Config, b: Config, c: Config)
    ensures (a == b || Before(a, b)) && (b == c || Before(b, c)) ==> a == c || Before(a, c)
    ensures (a == b || Before(a, b)) && Before(b, c) ==> Before(a, c)
    ensures Before(b, c) ==> |c.input| < |b.input| || (|c.input| == |b.input| && Rank(c) < Rank(b))
  {
  }

  /** A finished value reaches the main builder. */
  lemma Handed(cr: Config, f: Frame)
    requires cr.ret != Nothing && cr.stack == [f] && f.DumpFrame?
    ensures var o := if cr.ret.RetObject? then Some(cr.ret.o) else ObjectOf(f.ty, cr.ret.v);
            if o.None? then Run(cr) == Halt(cr.(ret := Nothing), Outside)
            else
              var c' := cr.(stack := [], ret := Nothing, out := cr.out + [o.value]);
              Run(cr) == Run(c') && Before(cr, c')
  {
    hide Run, ObjectOf;
    RunUnfolds(cr);
    assert Below(cr) == [];
  }

  lemma NoBuilders(c: Config)
    requires c.stack == [] && c.ret == Nothing
    ensures Shape(c)
  {
  }

  function ValuePairs(kvs: seq<(Z.Item, Z.Item)>): (r: seq<(Value, Value)>)
    ensures |r| == |kvs|
  {
    seq(|kvs|, i requires 0 <= i < |kvs| => (ValueOfItem(kvs[i].0), ValueOfItem(kvs[i].1)))
  }

  lemma PairsOfFlat(kvs: seq<(Z.Item, Z.Item)>)
    ensures Pairs(ValuesOfItems(Z.Flatten(kvs))) == ValuePairs(kvs)
  {
    var vals := ValuesOfItems(Z.Flatten(kvs));
    forall i | 0 <= i < |kvs| ensures Pairs(vals)[i] == ValuePairs(kvs)[i] {
      Z.FlatAt(kvs, i);
      PairsAt(vals, i);
    }
  }

  // ---------------------------------------------------------------- the feeding loop

  lemma FirstRun()
    ensures Shape(Config([], [], Nothing, []))
  {
  }

  lemma PieceFollows(s: seq<int>, k: int, n: int, len: int)
    requires 0 <= k && 0 <= n && k + n <= len <= |s|
    ensures s[..len][..k + n] == s[..len][..k] + s[k..k + n]
  {
  }

  /** Parsing on with a piece more is parsing the whole so far. */
  lemma FeedStep(c: Config, before: seq<int>, piece: seq<int>, first: bool)
    requires if first then c == Config([], before, Nothing, [])
             else Run(Config([], before, Nothing, [])) == Halt(c, Premature)
    ensures var whole := Config([], before + piece, Nothing, []);
            && Run(More(c, piece)) == Run(whole)
            && (Run(whole).why == Premature ==> |Run(whole).c.input| < 5 && Shape(Run(whole).c))
  {
    hide Run, Shape;
    var start := Config([], before, Nothing, []);
    assert More(start, piece) == Config([], before + piece, Nothing, []);
    if !first { RunResumes(start, piece); }
    var whole := Config([], before + piece, Nothing, []);
    RunResumes(whole, []);
    NoBuilders(whole);
    WaitsInShape(whole);
  }

  lemma {:induction false} LastHasShape(c: Config)
    requires Shape(c)
    ensures Shape(Last(c))
    decreases |c.input|, Rank(c)
  {
    hide Step, Shape, Rank;
    StepDecreases(c);
    LastUnfolds(c);
    if Step(c).Go? {
      StepKeepsShape(c);
      LastHasShape(Step(c).c);
    }
  }

  lemma WaitsInShape(c: Config)
    requires Shape(c)
    ensures Run(c).why == Premature ==> Shape(Run(c).c)
  {
    hide Run, Shape, Step;
    LastIsLast(c);
    LastHasShape(c);
    if Run(c).why == Premature { HaltHasShape(Last(c)); }
  }

  lemma HaltHasShape(l: Config)
    requires Shape(l) && Step(l).Halt? && Step(l).why == Premature
    ensures Shape(Step(l).c)
  {
    hide StoreLen, IntOf, Filled, ObjectOf;
    if l.stack != [] && (Top(l).StrFrame? || Top(l).LzfFrame?) && Step(l).c != l {
      DataHalts(l);
      var f := Top(l);
      hide Shape;
      SetKeepsShape(l, f.(got := f.got + l.input));
      InputIsNoShape(SetTop(l, f.(got := f.got + l.input)));
    }
  }

  lemma InputIsNoShape(c: Config)
    ensures forall input :: Shape(c.(input := input)) == Shape(c)
  {
  }

  /** After an error more bytes change nothing but the input. */
  lemma Errs(c: Config, b: seq<int>)
    requires Run(c).why != Premature
    ensures var r := Run(c.(input := c.input + b));
            r.why == Run(c).why && r.c.out == Run(c).c.out && r.c.stack == Run(c).c.stack
  {
    hide Run;
    RunResumes(c, b);
  }
}
