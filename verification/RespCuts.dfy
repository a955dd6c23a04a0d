/** Simple and error strings in pieces: every text is copied to the start of its buffer, so a second
    part overwrites the first.  Which cuts of a stream spoil a reply, and which do not. */
module RespCuts {
  import opened Wrappers
  import opened StringSearch
  import opened RespMachine
  import opened RespChunking
  import opened RespRoundTrip

  // ---------------------------------------------------------------- one text in two parts

  const FRESH: seq<seq<int>> := [[]]

  /** The builder of a text of which nothing is taken yet. */
  function Begun(kind: Kind): Frame { SimpleFrame(kind, true, 0, FRESH) }

  /** What the buffer holds when the text s has come in two parts, cut behind its k-th byte. */
  function Received(s: seq<int>, k: int): seq<int> {
    if 2 <= k < |s| then Overlay(s[..k], s[k..], |s| - k) else s
  }

  predicate Octets(s: seq<int>) { forall x | x in s :: 0 <= x < 256 }

  /** A line that comes in two parts, cut behind k bytes, is delivered with the right length; its
      text is right exactly if at most one byte or all of it was in the first part.  A cut inside
      the line end harms nothing. */
  lemma CutExactly(below: seq<Frame>, kind: Kind, s: seq<int>, k: int, rest: seq<int>, out: seq<Reply>)
    requires 13 !in s && |s| <= 4096 && Octets(s) && 0 <= k < |s| + 2
    ensures var line := s + [13, 10];
            var r := Run(Working(below, Begun(kind), line[..k], out));
            && r.why == Premature
            && Run(More(r.c, line[k..] + rest))
               == Run(Config(below, rest, Some(Text(kind, [Received(s, k)], |s|)), out))
    ensures Received(s, k) == s <==> k < 2 || k >= |s|
  {
    hide Run, Last, Received, Both, Working, More;
    assert Begun(kind) == SimpleFrame(kind, true, 0, [[]]);
    var line, m := s + CRLF, Min(k, |s|);
    if k < 2 {
      assert line[..k] + (line[k..] + rest) == s + (CRLF + rest);
      NothingTaken(below, kind, line[..k], out);
      LastPart(below, kind, [], s, line[..k], line[k..] + rest, rest, out);
    } else {
      assert line[..k] == s[..m] + line[m..k] && line[m..k] + (line[k..] + rest) == s[m..] + (CRLF + rest);
      FirstPart(below, kind, s[..m], line[m..k], out);
      LastPart(below, kind, s[..m], s[m..], line[m..k], line[k..] + rest, rest, out);
    }
    ReceivedInParts(s, k);
  }

  lemma ReceivedInParts(s: seq<int>, k: int)
    requires Octets(s) && 0 <= k
    ensures Received(s, k) == if k < 2 then Both([], s) else Both(s[..Min(k, |s|)], s[Min(k, |s|)..])
    ensures Received(s, k) == s <==> k < 2 || k >= |s|
  {
    if 2 <= k < |s| {
      LastIsGap(s[..k], s[k..]);
      assert s[|s| - 1] in s;
    } else {
      assert s[..|s|] == s;
    }
  }

  lemma NothingTaken(below: seq<Frame>, kind: Kind, x: seq<int>, out: seq<Reply>)
    requires |x| < 2
    ensures Run(Working(below, Begun(kind), x, out))
            == Halt(Working(below, Begun(kind), x, out), Premature)
  {
    hide Run, Last;
    TopOf(below, Begun(kind), x, out);
    Unfolds(Working(below, Begun(kind), x, out));
  }

  lemma FirstPart(below: seq<Frame>, kind: Kind, a: seq<int>, left: seq<int>, out: seq<Reply>)
    requires 13 !in a && |a| <= BUF_SIZE && (left == [] || left == [13]) && |a + left| >= 2
    ensures Run(Working(below, Begun(kind), a + left, out))
            == Halt(Working(below, SimpleFrame(kind, true, |a|, [a]), left, out), Premature)
  {
    hide Run, Last, SimpleData, Append;
    var c := Working(below, Begun(kind), a + left, out);
    TopOf(below, Begun(kind), a + left, out);
    Unfolds(c);
    TextIsSeen(c, a, left);
    TextOnce(a);
  }

  lemma TextOnce(text: seq<int>)
    requires |text| <= BUF_SIZE
    ensures Append(FRESH, text, |text|) == [text]
  {
    AppendOnce(text, |text|);
    assert text[..|text|] == text;
  }

  lemma LastIsGap(a: seq<int>, b: seq<int>)
    requires a != [] && b != []
    ensures var t := Overlay(a, b, |b|); |t| == |a| + |b| && t[|t| - 1] == -1
  {
  }

  /** The buffer after the first part a and the second part b. */
  function Both(a: seq<int>, b: seq<int>): seq<int> {
    if a == [] then b else if b == [] then a else Overlay(a, b, |b|)
  }

  lemma BothAppended(a: seq<int>, b: seq<int>)
    requires |a| + |b| <= BUF_SIZE
    ensures Append([a], b, |b|) == [Both(a, b)]
  {
    if b != [] {
      var t := Overlay(a, b, |b|);
      assert [a][0 := t] == [t];
      assert Append([t], b, 0) == [t];
      if a == [] { assert t == b; }
    }
  }

  /** The last part of a line arrives. */
  lemma LastPart(below: seq<Frame>, kind: Kind, a: seq<int>, b: seq<int>, left: seq<int>, more: seq<int>,
                 rest: seq<int>, out: seq<Reply>)
    requires 13 !in b && |a| + |b| <= BUF_SIZE && left + more == b + (CRLF + rest)
    ensures Run(More(Working(below, SimpleFrame(kind, true, |a|, [a]), left, out), more))
            == Run(Config(below, rest, Some(Text(kind, [Both(a, b)], |a| + |b|)), out))
  {
    hide Run, Last, SimpleData, Append, Both;
    var g := SimpleFrame(kind, true, |a|, [a]);
    var c := Working(below, g, left + more, out);
    TopOf(below, g, left + more, out);
    TextIsSeen(c, b, CRLF + rest);
    BothAppended(a, b);
    assert (CRLF + rest)[2..] == rest;
    Unfolds(c);
  }

  // ---------------------------------------------------------------- long texts

  /** What the buffers of 4096 bytes hold when n bytes of p have come at once: every buffer is filled
      from the first byte of p again. */
  function Restarted(p: seq<int>, n: int): seq<seq<int>>
    requires 0 <= n <= |p|
    decreases n
  {
    if n <= 4096 then [p[..n]] else [p[..4096]] + Restarted(p, n - 4096)
  }

  lemma {:induction false} AppendRestarts(bufs: seq<seq<int>>, p: seq<int>, n: int)
    requires 0 <= n <= |p|
    ensures Append(bufs + [[]], p, n) == bufs + Restarted(p, n)
    decreases n
  {
    var k := Min(4096, n);
    var b := Overlay([], p, k);
    assert b == p[..k];
    if n == 0 {
      assert p[..0] == [];
    } else {
      assert (bufs + [[]])[|bufs| := b] == bufs + [b];
      if n <= 4096 {
        assert Append(bufs + [b], p, 0) == bufs + [b];
      } else {
        AppendRestarts(bufs + [b], p, n - 4096);
        assert bufs + [b] + Restarted(p, n - 4096) == bufs + ([b] + Restarted(p, n - 4096));
      }
    }
  }

  /** A line of any length that comes at once. */
  lemma LongTextRuns(below: seq<Frame>, kind: Kind, s: seq<int>, rest: seq<int>, out: seq<Reply>)
    requires 13 !in s
    ensures Run(Working(below, Begun(kind), s + [13, 10] + rest, out))
            == Run(Config(below, rest, Some(Text(kind, Restarted(s, |s|), |s| % 0x1_0000_0000)), out))
  {
    hide Run, Last, SimpleData, Append, Restarted;
    var input, left := s + [13, 10] + rest, CRLF + rest;
    var c := Working(below, Begun(kind), input, out);
    assert input == s + left && left[2..] == rest && CRLF <= left;
    TopOf(below, Begun(kind), input, out);
    TextIsSeen(c, s, left);
    RestartsFresh(s);
    Unfolds(c);
  }

  lemma RestartsFresh(s: seq<int>)
    ensures Append(FRESH, s, |s|) == Restarted(s, |s|)
  {
    hide Append, Restarted;
    AppendRestarts([], s, |s|);
    assert [] + [[]] == FRESH && [] + Restarted(s, |s|) == Restarted(s, |s|);
  }

  // ---------------------------------------------------------------- where a stream is cut

  /** A cut behind k bytes of a printed reply falls inside a text, behind its second byte or later
      and before its last. */
  predicate Spoils(t: Tree, k: int)
    decreases t, 0
  {
    match t
    case SimpleText(s) => 3 <= k < 1 + |s|
    case ErrorText(s) => 3 <= k < 1 + |s|
    case Array(ts) => SpoilsAny(ts, k - (1 + |Dec(|ts|)| + 2))
    case _ => false
  }

  predicate SpoilsAny(ts: seq<Tree>, k: int)
    decreases ts, 1
  {
    ts != [] && if k < |Print(ts[0])| then Spoils(ts[0], k) else SpoilsAny(ts[1..], k - |Print(ts[0])|)
  }

  /** At no cut have two bytes of a text or more arrived, and not all of it. */
  predicate WholeTexts(ts: seq<Tree>, chunks: seq<seq<int>>) {
    forall i | 0 <= i < |chunks| :: !SpoilsAny(ts, |Concat(chunks[..i])|)
  }

  lemma {:induction false} SpoilsLate(t: Tree, k: int)
    requires k < 3
    ensures !Spoils(t, k)
    decreases t, 0
  {
    if t.Array? { NoneSpoilt(t.trees, k - (1 + |Dec(|t.trees|)| + 2)); }
  }

  lemma {:induction false} NoneSpoilt(ts: seq<Tree>, k: int)
    requires k <= 0
    ensures !SpoilsAny(ts, k)
    decreases ts, 1
  {
    if ts != [] { SpoilsLate(ts[0], k); }
  }

  /** The parser waits inside the line of the text s. */
  predicate Inside(l: Config, b: seq<int>, s: seq<int>, tail: seq<int>) {
    && l.stack != [] && Top(l).SimpleFrame? && Top(l) == Begun(Top(l).kind)
    && 13 !in s && |s| <= BUF_SIZE && l.input + b == s + CRLF + tail && |l.input| < |s| + 2
  }

  /** The parser has come to l, the bytes b are to follow, and it is in the middle of a text exactly
      if the cut here spoils one. */
  ghost predicate Cut(l: Config, b: seq<int>, spoils: bool) {
    && Step(l).Halt? && Step(l).why == Premature && l.ret.None? && l.stack != []
    && (if Top(l).SimpleFrame?
        then exists s, tail :: Inside(l, b, s, tail) && (spoils <==> 2 <= |l.input| < |s|)
        else !spoils)
  }

  lemma LineCut(s: seq<int>, x: seq<int>, b: seq<int>, tail: seq<int>)
    requires 13 !in s && x + b == s + CRLF + tail && |x| < |s| + 2
    ensures LineEnd(x) == -1
  {
    var m := Min(|x|, |s|);
    assert x == (x + b)[..|x|] && x == s[..m] + CRLF[..|x| - m];
    if |x| >= 2 { NoLineEnd(s[..m], CRLF[..|x| - m]); }
  }

  lemma TextCut(below: seq<Frame>, kind: Kind, s: seq<int>, x: seq<int>, b: seq<int>, tail: seq<int>, out: seq<Reply>)
    requires 13 !in s && |s| <= BUF_SIZE && x + b == s + CRLF + tail && |x| < |s| + 2
    ensures var c := Working(below, SimpleFrame(kind, false, 0, []), x, out);
            Last(c) == Working(below, Begun(kind), x, out) && Cut(Last(c), b, 2 <= |x| < |s|)
  {
    hide LineEnd, Append, Run, Last;
    LineCut(s, x, b, tail);
    TopOf(below, SimpleFrame(kind, false, 0, []), x, out);
    Unfolds(Working(below, SimpleFrame(kind, false, 0, []), x, out));
    TopOf(below, Begun(kind), x, out);
    Unfolds(Working(below, Begun(kind), x, out));
    assert Inside(Working(below, Begun(kind), x, out), b, s, tail);
  }

  /** Waiting for a length. */
  lemma LenCut(below: seq<Frame>, f: Frame, v: int, x: seq<int>, b: seq<int>, tail: seq<int>, out: seq<Reply>)
    requires f == BulkFrame(false, 0, []) || f == ArrayFrame(ALen, 0, [], TInteger)
    requires x + b == DecInt(v) + CRLF + tail && |x| < |DecInt(v)| + 2
    ensures Cut(Last(Working(below, f, x, out)), b, false)
  {
    hide LineEnd, IntValue, DecInt, Run, Last;
    NoReturnInDec(v);
    LineCut(DecInt(v), x, b, tail);
    TopOf(below, f, x, out);
    Unfolds(Working(below, f, x, out));
  }

  lemma BulkCut(below: seq<Frame>, s: seq<int>, x: seq<int>, b: seq<int>, rest: seq<int>, out: seq<Reply>)
    requires |s| + 3 < U32 && x + b == Dec(|s|) + CRLF + s + CRLF + rest && |x| < |Dec(|s|) + CRLF + s + CRLF|
    ensures Cut(Last(Working(below, BulkFrame(false, 0, []), x, out)), b, false)
  {
    hide LineEnd, IntValue, Dec, Run, Last;
    var head := Dec(|s|) + CRLF;
    if |x| < |head| {
      assert x + b == DecInt(|s|) + CRLF + (s + CRLF + rest);
      LenCut(below, BulkFrame(false, 0, []), |s|, x, b, s + CRLF + rest, out);
    } else {
      var y, f := x[|head|..], BulkFrame(true, |s|, []);
      assert x == (x + b)[..|x|] && x == head + y;
      BulkStarts(below, |s|, y, out);
      TopOf(below, f, y, out);
      Unfolds(Working(below, f, y, out));
    }
  }

  /** Content of which only a part has come. */
  lemma {:induction false} ContentCut(c: Config, t: Tree, b: seq<int>, rest: seq<int>)
    requires c.ret.None? && c.stack != [] && Waiting(Top(c)) && WaitsFor(Top(c)) == Kinds(t)
    requires Fits(t) && |c.stack| + Need(t) <= SLOTS
    requires c.input + b == Body(t) + rest && |c.input| < |Body(t)|
    ensures Cut(Last(c), b, Spoils(t, 1 + |c.input|))
    decreases t, if t.Array? then |t.trees| + 1 else 0
  {
    hide Run, Last, LineEnd, Append, IntValue, DecInt, Dec, Cut;
    Unfolds(c);
    match t
    case SimpleText(s) => TextCut(c.stack, Simple, s, c.input, b, rest, c.out);
    case ErrorText(s) => TextCut(c.stack, Error, s, c.input, b, rest, c.out);
    case Int(v) => IntCut(c, v, b, rest);
    case BulkText(s) => BulkCut(c.stack, s, c.input, b, rest, c.out);
    case NullBulk => LenCut(c.stack, BulkFrame(false, 0, []), -1, c.input, b, rest, c.out);
    case NullArray => LenCut(c.stack, ArrayFrame(ALen, 0, [], TInteger), -1, c.input, b, rest, c.out);
    case Array(ts) => ArrayCut(c, t, b, rest);
  }

  lemma IntCut(c: Config, v: int, b: seq<int>, rest: seq<int>)
    requires c.ret.None? && c.stack != [] && Waiting(Top(c)) && WaitsFor(Top(c)) == TInteger
    requires c.input + b == DecInt(v) + CRLF + rest && |c.input| < |DecInt(v)| + 2
    ensures Cut(Last(c), b, false)
  {
    hide Run, Last, LineEnd, IntValue, DecInt;
    NoReturnInDec(v);
    LineCut(DecInt(v), c.input, b, rest);
    Unfolds(c);
  }

  lemma ArrayCut(c: Config, t: Tree, b: seq<int>, rest: seq<int>)
    requires c.ret.None? && c.stack != [] && Waiting(Top(c)) && WaitsFor(Top(c)) == Kinds(t)
    requires t.Array? && Fits(t) && |c.stack| + Need(t) <= SLOTS
    requires c.input + b == Body(t) + rest && |c.input| < |Body(t)|
    ensures Cut(Last(c), b, Spoils(t, 1 + |c.input|))
    decreases t, |t.trees| + 1, 0
  {
    hide Run, Last, LineEnd, IntValue, Dec, Cut, Spoils, SpoilsAny, Fits, Need;
    var ts, x, f := t.trees, c.input, ArrayFrame(ALen, 0, [], TInteger);
    var head, tail := Dec(|ts|) + CRLF, PrintAll(ts) + rest;
    ArrayPushed(c, t);
    SpoilsInArray(t, |x|);
    assert x + b == head + tail;
    if |x| < |head| {
      LenCut(c.stack, f, |ts|, x, b, tail, c.out);
      NoneSpoilt(ts, |x| - |head|);
    } else {
      Behind(x, b, head, tail);
      ElemsBegin(c.stack, t, x[|head|..], c.out);
      assert ts[0..] == ts;
      ElemsCut(c.stack, t, 0, TInteger, x[|head|..], b, rest, c.out);
    }
  }

  lemma ArrayPushed(c: Config, t: Tree)
    requires c.ret.None? && c.stack != [] && Waiting(Top(c)) && WaitsFor(Top(c)) == Kinds(t)
    requires t.Array? && |c.stack| + Need(t) <= SLOTS
    ensures Same(c, Working(c.stack, ArrayFrame(ALen, 0, [], TInteger), c.input, c.out))
  {
    hide Run, Last, LineEnd, IntValue;
    Unfolds(c);
  }

  lemma ElemsBegin(below: seq<Frame>, t: Tree, y: seq<int>, out: seq<Reply>)
    requires t.Array? && t.trees != [] && Fits(t)
    ensures Same(Working(below, ArrayFrame(ALen, 0, [], TInteger), Dec(|t.trees|) + CRLF + y, out),
                 Working(below, ArrayFrame(AType, |t.trees|, Vals(t.trees[..0]), TInteger), y, out))
  {
    hide Run, Last;
    ArrayStarts(below, |t.trees|, y, out);
    assert t.trees[..0] == [];
  }

  /** What is cut behind head is head and the beginning of the rest. */
  lemma Behind(x: seq<int>, b: seq<int>, head: seq<int>, rest: seq<int>)
    requires x + b == head + rest && |x| >= |head|
    ensures x == head + x[|head|..] && x[|head|..] + b == rest
  {
    assert x == (x + b)[..|x|] && x[|head|..] + b == (x + b)[|head|..];
    assert x[..|head|] == (x + b)[..|head|];
  }

  lemma SpoilsInArray(t: Tree, n: int)
    requires t.Array?
    ensures Spoils(t, 1 + n) == SpoilsAny(t.trees, n - |Dec(|t.trees|) + CRLF|)
  {
  }

  /** An array of which the first i elements are there, and only a part of the others. */
  lemma {:induction false} ElemsCut(below: seq<Frame>, t: Tree, i: int, ty: Type, x: seq<int>, b: seq<int>,
                                    rest: seq<int>, out: seq<Reply>)
    requires t.Array? && 0 <= i < |t.trees| && Fits(t) && |below| + Need(t) <= SLOTS
    requires x + b == PrintAll(t.trees[i..]) + rest && |x| < |PrintAll(t.trees[i..])|
    ensures Cut(Last(Working(below, ArrayFrame(AType, |t.trees|, Vals(t.trees[..i]), ty), x, out)), b,
                SpoilsAny(t.trees[i..], |x|))
    decreases t, |t.trees| - i, 1
  {
    hide Run, Last, LineEnd, Append, IntValue, DecInt, Dec, Content, Body, Cut, Spoils;
    var ts := t.trees;
    var u, f := ts[i], ArrayFrame(AType, |ts|, Vals(ts[..i]), ty);
    assert ts[i..][0] == u && ts[i..][1..] == ts[i + 1..];
    if x == [] {
      TypeCut(below, f, b, out);
      SpoilsLate(u, 0);
    } else {
      var g, tail := f.(state := AElem, elemType := Kinds(u)), PrintAll(ts[i + 1..]) + rest;
      assert x + b == [Lead(Kinds(u))] + (Body(u) + tail);
      Behind(x, b, [Lead(Kinds(u))], Body(u) + tail);
      TypeTaken(below, f, Kinds(u), x[1..], out);
      TopOf(below, g, x[1..], out);
      AllFitAt(ts, i);
      NeedAt(ts, i);
      if |x| < |Print(u)| {
        ContentCut(Working(below, g, x[1..], out), u, b, tail);
      } else {
        var y := x[|Print(u)|..];
        Behind(x[1..], b, Body(u), tail);
        ElemRuns(below, t, i, y, out);
        ElemsCut(below, t, i + 1, Kinds(u), y, b, rest, out);
      }
    }
  }

  /** Waiting for a leading byte. */
  lemma TypeCut(below: seq<Frame>, f: Frame, b: seq<int>, out: seq<Reply>)
    requires (f.TopFrame? && !f.typed) || (f.ArrayFrame? && f.state == AType)
    ensures Cut(Last(Working(below, f, [], out)), b, false)
  {
    hide Run, Last;
    TopOf(below, f, [], out);
    Unfolds(Working(below, f, [], out));
  }

  /** Wherever a stream of printed replies is cut, the parser waits for more, in the middle of a text
      exactly if the cut spoils one. */
  lemma {:induction false} StreamCut(ts: seq<Tree>, x: seq<int>, b: seq<int>, out: seq<Reply>)
    requires AllFit(ts) && 1 + NeedAll(ts) <= 15 && x + b == PrintAll(ts)
    ensures Cut(Last(Idle(x, out)), b, SpoilsAny(ts, |x|))
    decreases |ts|
  {
    hide Run, Last, Body, Content, Cut, Spoils;
    var f := TopFrame(false, TInteger);
    assert [] + [f] == [f];
    if x == [] {
      TypeCut([], f, b, out);
      NoneSpoilt(ts, 0);
    } else {
      var u, tail := ts[0], PrintAll(ts[1..]);
      var g := TopFrame(true, Kinds(u));
      assert x + b == [Lead(Kinds(u))] + (Body(u) + tail) && [] + [g] == [g];
      Behind(x, b, [Lead(Kinds(u))], Body(u) + tail);
      AllFitAt(ts, 0);
      NeedAt(ts, 0);
      AllOfTail(ts);
      if |x| < |Print(u)| {
        TypeTaken([], f, Kinds(u), x[1..], out);
        ContentCut(Working([], g, x[1..], out), u, b, tail);
      } else {
        var y := x[|Print(u)|..];
        Behind(x, b, Print(u), tail);
        ReplyRuns(u, y, out);
        StreamCut(ts[1..], y, b, out + [Val(u)]);
      }
    }
  }

  // ---------------------------------------------------------------- streams in pieces

  lemma {:induction false} FeedMore(c: Config, chunks: seq<seq<int>>, more: seq<seq<int>>)
    ensures var r := Feed(c, chunks);
            Feed(c, chunks + more) == if r.Halt? && r.why == Premature then Feed(r.c, more) else r
    decreases |chunks|
  {
    hide Run;
    if chunks == [] {
      assert [] + more == more;
    } else {
      assert (chunks + more)[1..] == chunks[1..] + more;
      FeedMore(Run(More(c, chunks[0])).c, chunks[1..], more);
    }
  }

  lemma {:induction false} ConcatMore(chunks: seq<seq<int>>, more: seq<seq<int>>)
    ensures Concat(chunks + more) == Concat(chunks) + Concat(more)
    decreases |chunks|
  {
    if chunks == [] {
      assert [] + more == more;
    } else {
      assert (chunks + more)[1..] == chunks[1..] + more;
      ConcatMore(chunks[1..], more);
    }
  }

  lemma SplitAt(chunks: seq<seq<int>>, i: int)
    requires 0 <= i <= |chunks|
    ensures Concat(chunks) == Concat(chunks[..i]) + Concat(chunks[i..])
  {
    hide Concat;
    assert chunks == chunks[..i] + chunks[i..];
    ConcatMore(chunks[..i], chunks[i..]);
  }

  lemma GrowsBy(chunks: seq<seq<int>>, i: int)
    requires 0 <= i < |chunks|
    ensures Concat(chunks[..i + 1]) == Concat(chunks[..i]) + chunks[i]
  {
    hide Concat;
    assert chunks[..i + 1] == chunks[..i] + [chunks[i]];
    ConcatMore(chunks[..i], [chunks[i]]);
    ConcatOne(chunks[i]);
  }

  lemma ShrinksBy(chunks: seq<seq<int>>, i: int)
    requires 0 <= i < |chunks|
    ensures Concat(chunks[i..]) == chunks[i] + Concat(chunks[i + 1..])
  {
    assert chunks[i..][1..] == chunks[i + 1..];
  }

  lemma ConcatOne(a: seq<int>)
    ensures Concat([a]) == a
  {
    assert [a][1..] == [];
  }

  lemma CutWaits(ts: seq<Tree>, x: seq<int>, b: seq<int>)
    requires AllFit(ts) && 1 + NeedAll(ts) <= 15 && x + b == PrintAll(ts)
    ensures Run(Idle(x, [])).why == Premature && Cut(Last(Idle(x, [])), b, SpoilsAny(ts, |x|))
    ensures Run(Idle(x, [])) == Step(Last(Idle(x, [])))
  {
    hide Run, Last, Step;
    StreamCut(ts, x, b, []);
    LastIsLast(Idle(x, []));
  }

  /** A cut that spoils nothing is harmless, whatever part of the rest arrives next. */
  lemma NotSpoilt(l: Config, b: seq<int>, b': seq<int>)
    requires Cut(l, b, false) && b' <= b
    ensures Harmless(l, b')
  {
    hide Step;
    if Top(l).SimpleFrame? && |l.input| >= 2 {
      var s, tail :| Inside(l, b, s, tail) && !(2 <= |l.input| < |s|);
      var x := l.input;
      assert x + b == s + (CRLF + tail) && x == (x + b)[..|x|] && b == (x + b)[|x|..];
      assert x == s + CRLF[..|x| - |s|];
      assert TextPart(x) == |s| && x[..|s|] == s;
      assert x[|s|..] + b == CRLF + tail && x[|s|..] + b' <= CRLF + tail;
      PrefixOfLineEnd(x[|s|..] + b', tail);
    }
  }

  lemma PrefixOfLineEnd(z: seq<int>, tail: seq<int>)
    requires z <= CRLF + tail
    ensures z <= CRLF || CRLF <= z
  {
    if |z| >= 2 { assert z[..2] == (CRLF + tail)[..2]; } else { assert z == CRLF[..|z|]; }
  }

  /** As long as no cut spoils a text the parser is where it would be without them. */
  lemma {:induction false} FeedWhole(ts: seq<Tree>, chunks: seq<seq<int>>, n: int)
    requires AllFit(ts) && 1 + NeedAll(ts) <= 15 && Concat(chunks) == PrintAll(ts)
    requires 0 <= n <= |chunks| && forall i | 0 <= i < n :: !SpoilsAny(ts, |Concat(chunks[..i])|)
    ensures Feed(Idle([], []), chunks[..n]) == Run(Idle(Concat(chunks[..n]), []))
    ensures Run(Idle(Concat(chunks[..n]), [])).why == Premature
    decreases n
  {
    hide Run, Last, Step, Cut, Harmless, Spoils, SpoilsAny;
    if n == 0 {
      Rests([]);
    } else {
      var x, chunk := Concat(chunks[..n - 1]), chunks[n - 1];
      FeedWhole(ts, chunks, n - 1);
      GrowsBy(chunks, n - 1);
      ShrinksBy(chunks, n - 1);
      SplitAt(chunks, n - 1);
      NextWhole(ts, x, chunk, Concat(chunks[n..]));
      assert chunks[..n] == chunks[..n - 1] + [chunk];
      FeedMore(Idle([], []), chunks[..n - 1], [chunk]);
      FeedOne(Run(Idle(x, [])).c, chunk);
    }
  }

  lemma NextWhole(ts: seq<Tree>, x: seq<int>, chunk: seq<int>, more: seq<int>)
    requires AllFit(ts) && 1 + NeedAll(ts) <= 15 && x + (chunk + more) == PrintAll(ts) && !SpoilsAny(ts, |x|)
    ensures Run(Idle(x, [])).why == Run(Idle(x + chunk, [])).why == Premature
    ensures Run(More(Run(Idle(x, [])).c, chunk)) == Run(Idle(x + chunk, []))
  {
    hide Run, Last, Step, Cut, Harmless, SpoilsAny;
    var c := Idle(x, []);
    assert x + chunk + more == PrintAll(ts);
    CutWaits(ts, x, chunk + more);
    CutWaits(ts, x + chunk, more);
    NotSpoilt(Last(c), chunk + more, chunk);
    CutAnywhere(c, chunk);
  }

  lemma FeedOne(c: Config, chunk: seq<int>)
    ensures Feed(c, [chunk]) == Run(More(c, chunk))
  {
    hide Run;
    assert [chunk][1..] == [];
  }

  /** Printed replies come back when they arrive in pieces, all of them and nothing else, if every
      text arrives whole. */
  lemma WholeInPieces(ts: seq<Tree>, chunks: seq<seq<int>>)
    requires AllFit(ts) && 1 + NeedAll(ts) <= 15 && Concat(chunks) == PrintAll(ts) && WholeTexts(ts, chunks)
    ensures Feed(Idle([], []), chunks) == Halt(Idle([], Vals(ts)), Premature)
  {
    hide Run, SpoilsAny;
    FeedWhole(ts, chunks, |chunks|);
    assert chunks[..|chunks|] == chunks && [] + Vals(ts) == Vals(ts);
    StreamRuns(ts, []);
  }

  // ---------------------------------------------------------------- what a spoilt text leaves

  lemma {:induction false} ReplyHasNoGap(t: Tree)
    requires Octets(Print(t))
    ensures ReplyFree(OfGap, Val(t))
    decreases t, 0
  {
    hide Dec, Gap;
    match t
    case SimpleText(s) => OneBufferNoGap(Print(t), [43], s);
    case ErrorText(s) => OneBufferNoGap(Print(t), [45], s);
    case BulkText(s) =>
      var head := [36] + Dec(|s|) + CRLF;
      assert Print(t) == head + s + CRLF;
      OneBufferNoGap(Print(t), head, s);
    case Array(ts) =>
      var head := [42] + Dec(|ts|) + CRLF;
      assert Print(t) == head + PrintAll(ts);
      OctetsIn(head, PrintAll(ts));
      RepliesHaveNoGap(ts);
      ArrIsFree(OfGap, Vals(ts));
    case _ =>
  }

  lemma OctetsIn(a: seq<int>, b: seq<int>)
    requires Octets(a + b)
    ensures Octets(a) && Octets(b)
  {
    forall x | x in a || x in b ensures 0 <= x < 256 { assert x in a + b; }
  }

  lemma OneBufferNoGap(printed: seq<int>, head: seq<int>, s: seq<int>)
    requires printed == head + s + CRLF && Octets(printed)
    ensures !Gap([s])
  {
    OctetsIn(head + s, CRLF);
    OctetsIn(head, s);
    if s != [] { assert s[|s| - 1] in s; }
  }

  lemma {:induction false} RepliesHaveNoGap(ts: seq<Tree>)
    requires Octets(PrintAll(ts))
    ensures RepliesFree(OfGap, Vals(ts))
    decreases ts, 1
  {
    hide ReplyFree;
    if ts != [] {
      OctetsIn(Print(ts[0]), PrintAll(ts[1..]));
      ReplyHasNoGap(ts[0]);
      RepliesHaveNoGap(ts[1..]);
      ValsCons(ts);
    }
  }

  lemma RunKeepsShape(c: Config)
    requires Shape(c) && Run(c).why == Premature
    ensures Shape(Run(c).c)
  {
    hide Run, Step, Shape;
    LastKeepsShape(c);
    LastIsLast(c);
    StepKeepsShape(Last(c));
  }

  lemma {:induction false} GapNeverGoes(c: Config, chunks: seq<seq<int>>)
    requires Shape(c) && !Free(OfGap, c)
    ensures !Free(OfGap, Feed(c, chunks).c)
    decreases |chunks|
  {
    hide Run, Shape, Free;
    if chunks != [] {
      var c1 := More(c, chunks[0]);
      ShapeMore(c, chunks[0]);
      FreeMore(OfGap, c, chunks[0]);
      if Free(OfGap, Run(c1).c) { TraceEver(OfGap, c1); }
      if Run(c1).why == Premature {
        RunKeepsShape(c1);
        GapNeverGoes(Run(c1).c, chunks[1..]);
      }
    }
  }

  /** A builder that has taken the first part a of a text. */
  predicate Begins(c: Config, a: seq<int>) {
    && c.ret.None? && c.stack != [] && Top(c).SimpleFrame? && Top(c).started && Top(c).bufs == [a] && a != []
  }

  /** More of the text is taken. */
  lemma TakesMore(c: Config, a: seq<int>, text: seq<int>, left: seq<int>)
    requires Begins(c, a) && Shape(c) && c.input == text + left && |c.input| >= 2
    requires 13 !in text && text != [] && (left <= CRLF || CRLF <= left) && |a| < BUF_SIZE
    ensures !Free(OfGap, Run(c).c)
  {
    hide Run, Last, Step, Shape, Append, Gap;
    StepOfText(c);
    TextIsSeen(c, text, left);
    GapStays([a], text, |text|);
    SeenHasGap(Below(c), Top(c), text, left);
    Unfolds(c);
    StepKeepsShape(c);
    if Step(c).Go? && Free(OfGap, Run(c).c) { TraceEver(OfGap, Step(c).c); }
  }

  lemma StepOfText(c: Config)
    requires c.ret.None? && c.stack != [] && Top(c).SimpleFrame? && Top(c).started
    ensures Step(c) == SimpleData(c)
  {
    hide SimpleData;
  }

  lemma SeenHasGap(base: Config, f: Frame, text: seq<int>, left: seq<int>)
    requires f.SimpleFrame? && f.started && Gap(Append(f.bufs, text, |text|))
    ensures !Free(OfGap, TextSeen(base, f, text, left).c)
  {
    hide Append, Gap;
  }

  /** Once the first part of a text is taken and a second comes, a gap stays for good. */
  lemma {:induction false} GapComes(c: Config, chunks: seq<seq<int>>, a: seq<int>, v: seq<int>, tail: seq<int>)
    requires Begins(c, a) && Shape(c) && |c.input| < 2 && c.input + Concat(chunks) == v + (CRLF + tail)
    requires 13 !in v && v != [] && |a| + |v| <= BUF_SIZE
    ensures !Free(OfGap, Feed(c, chunks).c)
    decreases |chunks|
  {
    hide Run, Last, Shape, Free, SimpleData, Step;
    if chunks != [] {
      var c1, more := More(c, chunks[0]), Concat(chunks[1..]);
      var z := c1.input;
      assert z + more == v + (CRLF + tail);
      ShapeMore(c, chunks[0]);
      if |z| < 2 {
        StepOfText(c1);
        TooShort(c1);
        Unfolds(c1);
        GapComes(c1, chunks[1..], a, v, tail);
      } else {
        var m := Min(|z|, |v|);
        TextOf(z, more, v, tail);
        TakesMore(c1, a, z[..m], z[m..]);
        if Run(c1).why == Premature {
          RunKeepsShape(c1);
          GapNeverGoes(Run(c1).c, chunks[1..]);
        }
      }
    }
  }

  lemma TextOf(z: seq<int>, more: seq<int>, v: seq<int>, tail: seq<int>)
    requires z + more == v + (CRLF + tail) && 13 !in v
    ensures var m := Min(|z|, |v|);
            13 !in z[..m] && z == z[..m] + z[m..] && (z[m..] <= CRLF || CRLF <= z[m..])
  {
    var m := Min(|z|, |v|);
    assert z[..m] == (z + more)[..m] == v[..m];
    if m == |v| {
      assert z[m..] + more == (z + more)[m..] == CRLF + tail;
      assert z[m..] == (CRLF + tail)[..|z| - m];
      PrefixOfLineEnd(z[m..], tail);
    } else {
      assert z[m..] == [];
    }
  }

  /** The first cut that spoils a text: what was fed before it and what comes after. */
  lemma SpoiltText(c: Config, b: seq<int>, chunks: seq<seq<int>>)
    requires Shape(c) && Cut(Last(c), b, true) && Run(c) == Step(Last(c)) && Concat(chunks) == b
    ensures !Free(OfGap, Feed(Run(c).c, chunks).c)
  {
    hide Run, Last, Shape, Free, Step, Feed, Begins, Concat;
    var l, h := Last(c), Run(c).c;
    var s, tail :| Inside(l, b, s, tail) && 2 <= |l.input| < |s|;
    var x := l.input;
    var v := s[|x|..];
    assert s + CRLF + tail == s[..|x|] + (v + (CRLF + tail));
    Behind(x, b, s[..|x|], v + (CRLF + tail));
    assert x == s[..|x|];
    PartTaken(l);
    RunKeepsShape(c);
    assert [] + b == b;
    GapComes(h, chunks, x, v, tail);
  }

  lemma PartTaken(l: Config)
    requires l.ret.None? && l.stack != [] && Top(l).SimpleFrame? && Top(l) == Begun(Top(l).kind)
    requires 2 <= |l.input| <= BUF_SIZE && 13 !in l.input
    ensures Begins(Step(l).c, l.input) && Step(l).c.input == []
  {
    hide SimpleData, Append;
    assert l.input == l.input + [];
    StepOfText(l);
    TextIsSeen(l, l.input, []);
    TextOnce(l.input);
  }

  lemma SpoiltInPieces(ts: seq<Tree>, chunks: seq<seq<int>>, n: int)
    requires AllFit(ts) && 1 + NeedAll(ts) <= 15 && Concat(chunks) == PrintAll(ts)
    requires 0 <= n < |chunks| && SpoilsAny(ts, |Concat(chunks[..n])|)
    requires forall i | 0 <= i < n :: !SpoilsAny(ts, |Concat(chunks[..i])|)
    ensures !Free(OfGap, Feed(Idle([], []), chunks).c)
  {
    hide Run, Last, Cut, Feed, SpoilsAny, Shape, Free, Step, Concat, Idle;
    var done, rest := chunks[..n], chunks[n..];
    var x := Concat(done);
    SplitAt(chunks, n);
    FeedWhole(ts, chunks, n);
    CutWaits(ts, x, Concat(rest));
    IdleIsWell(x);
    SpoiltText(Idle(x, []), Concat(rest), rest);
    FeedMore(Idle([], []), done, rest);
    assert done + rest == chunks;
  }

  /** Printed replies in pieces: all come back, and nothing else, and nothing is left over, exactly
      if every simple and error string arrives whole, that is if at no cut two bytes of its text or
      more have arrived, and not all of it. */
  lemma StreamInPieces(ts: seq<Tree>, chunks: seq<seq<int>>)
    requires AllFit(ts) && 1 + NeedAll(ts) <= 15 && Concat(chunks) == PrintAll(ts) && Octets(PrintAll(ts))
    ensures Feed(Idle([], []), chunks) == Halt(Idle([], Vals(ts)), Premature) <==> WholeTexts(ts, chunks)
  {
    hide Feed, SpoilsAny, Free;
    if WholeTexts(ts, chunks) {
      WholeInPieces(ts, chunks);
    } else {
      SpoiltInPieces(ts, chunks, FirstSpoilt(ts, chunks, 0));
      RepliesHaveNoGap(ts);
      IdleIsFree(Vals(ts));
    }
  }

  lemma IdleIsWell(x: seq<int>)
    ensures Shape(Idle(x, []))
  {
  }

  lemma IdleIsFree(out: seq<Reply>)
    requires RepliesFree(OfGap, out)
    ensures Free(OfGap, Idle([], out))
  {
  }

  function FirstSpoilt(ts: seq<Tree>, chunks: seq<seq<int>>, i: int): (n: int)
    requires 0 <= i <= |chunks| && exists j :: i <= j < |chunks| && SpoilsAny(ts, |Concat(chunks[..j])|)
    ensures i <= n < |chunks| && SpoilsAny(ts, |Concat(chunks[..n])|)
    ensures forall j | i <= j < n :: !SpoilsAny(ts, |Concat(chunks[..j])|)
    decreases |chunks| - i
  {
    if SpoilsAny(ts, |Concat(chunks[..i])|) then i else FirstSpoilt(ts, chunks, i + 1)
  }

  // ---------------------------------------------------------------- streams without such texts

  predicate TextFree(t: Tree) {
    match t
    case SimpleText(_) => false
    case ErrorText(_) => false
    case Array(ts) => forall u | u in ts :: TextFree(u)
    case _ => true
  }

  lemma {:induction false} NothingToSpoil(t: Tree, k: int)
    requires TextFree(t)
    ensures !Spoils(t, k)
    decreases t, 0
  {
    if t.Array? { NoneToSpoil(t.trees, k - (1 + |Dec(|t.trees|)| + 2)); }
  }

  lemma {:induction false} NoneToSpoil(ts: seq<Tree>, k: int)
    requires forall t | t in ts :: TextFree(t)
    ensures !SpoilsAny(ts, k)
    decreases ts, 1
  {
    if ts != [] {
      NothingToSpoil(ts[0], k);
      NoneToSpoil(ts[1..], k - |Print(ts[0])|);
    }
  }

  /** Integers, bulk strings, nulls and arrays of them may be cut anywhere. */
  lemma TextFreeInPieces(ts: seq<Tree>, chunks: seq<seq<int>>)
    requires AllFit(ts) && 1 + NeedAll(ts) <= 15 && Concat(chunks) == PrintAll(ts)
    requires forall t | t in ts :: TextFree(t)
    ensures Feed(Idle([], []), chunks) == Halt(Idle([], Vals(ts)), Premature)
  {
    hide Feed, TextFree, SpoilsAny;
    forall i | 0 <= i < |chunks| ensures !SpoilsAny(ts, |Concat(chunks[..i])|) {
      NoneToSpoil(ts, |Concat(chunks[..i])|);
    }
    WholeInPieces(ts, chunks);
  }

  lemma {:induction false} BulksTextFree(pieces: seq<seq<int>>)
    ensures forall t | t in Bulks(pieces) :: TextFree(t)
  {
    if pieces != [] { BulksTextFree(pieces[..|pieces| - 1]); }
  }

  lemma {:induction false} CommandsTextFree(commands: seq<seq<seq<int>>>)
    ensures forall t | t in Commands(commands) :: TextFree(t)
  {
    if commands != [] {
      CommandsTextFree(commands[..|commands| - 1]);
      BulksTextFree(commands[|commands| - 1]);
    }
  }

  /** Commands that arrive in any pieces are understood as they were meant: one array per command,
      its elements the pieces of the command, whatever bytes are in them. */
  lemma CommandsInPieces(commands: seq<seq<seq<int>>>, chunks: seq<seq<int>>)
    requires forall i | 0 <= i < |commands| :: CommandFits(commands[i])
    requires Concat(chunks) == PrintAll(Commands(commands))
    ensures var r := Feed(Idle([], []), chunks);
            && r.Halt? && r.why == Premature && r.c == Idle([], r.c.out) && |r.c.out| == |commands|
            && forall i | 0 <= i < |commands| :: IsCommand(r.c.out[i], commands[i])
  {
    hide Feed, Concat, PrintAll, CommandFits, TextFree;
    CommandsFit(commands);
    CommandsTextFree(commands);
    TextFreeInPieces(Commands(commands), chunks);
    forall i | 0 <= i < |commands| ensures IsCommand(Vals(Commands(commands))[i], commands[i]) {
      CommandAt(commands, i);
      CommandIsCommand(commands[i]);
    }
  }
}
