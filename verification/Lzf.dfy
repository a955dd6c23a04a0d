/** The LZF decompressor of src/base/rdb_parser/lzf_d.c, against the meaning of its tokens. */
module Lzf {

  /** A byte read as an unsigned number. */
  function U8(b: int): (r: int)
    ensures 0 <= r < 256
  {
    b % 256
  }

  // ---------------------------------------------------------------- tokens

  /** A run of literal bytes, or a copy of `len` bytes starting `dist` back from the end of the
      output. */
  datatype Token = Lit(bytes: seq<int>) | Ref(len: int, dist: int)

  predicate TokenOk(t: Token) {
    match t
    case Lit(bytes) => 1 <= |bytes| <= 32
    case Ref(len, dist) => 3 <= len <= 264 && 1 <= dist <= 8192
  }

  predicate AllOk(ts: seq<Token>) { ts == [] || (TokenOk(ts[0]) && AllOk(ts[1..])) }

  /** Byte by byte, so that a copy may overlap what it produces. */
  function CopyBack(out: seq<int>, dist: int, n: nat): (r: seq<int>)
    requires 1 <= dist <= |out|
    ensures |r| == |out| + n && r[..|out|] == out
    decreases n
  {
    if n == 0 then out
    else
      var out' := out + [out[|out| - dist]];
      var r := CopyBack(out', dist, n - 1);
      assert r[..|out|] == r[..|out'|][..|out|] == out;
      r
  }

  /** out[k] = out[k - dist] for every byte copied, and this alone fixes the result. */
  lemma {:induction false} CopyBackIs(out: seq<int>, dist: int, n: nat, r: seq<int>)
    requires 1 <= dist <= |out|
    ensures r == CopyBack(out, dist, n)
            <==> |r| == |out| + n && r[..|out|] == out && forall k | |out| <= k < |r| :: r[k] == r[k - dist]
    decreases n
  {
    if n == 0 {
      if |r| == |out| { assert r[..|out|] == r; }
    } else {
      var out' := out + [out[|out| - dist]];
      CopyBackIs(out', dist, n - 1, r);
      if |r| == |out| + n {
        assert r[..|out'|] == r[..|out|] + [r[|out|]];
        assert r[..|out'|] == out' <==> r[..|out|] == out && r[|out|] == out[|out| - dist];
        if r[..|out|] == out { assert r[|out| - dist] == out[|out| - dist]; }
      }
    }
  }

  datatype Result = Done(out: seq<int>) | TooBig | Invalid

  /** The text of a token list, or why it has none: a text longer than `cap`, or a reference to
      before the text. */
  function Expand(ts: seq<Token>, out: seq<int>, cap: int): Result
    requires AllOk(ts)
    decreases |ts|
  {
    if ts == [] then Done(out)
    else
      match ts[0]
      case Lit(bytes) => if |out| + |bytes| > cap then TooBig else Expand(ts[1..], out + bytes, cap)
      case Ref(len, dist) =>
        if |out| + len > cap then TooBig
        else if dist > |out| then Invalid
        else Expand(ts[1..], CopyBack(out, dist, len), cap)
  }

  function Code(t: Token): seq<int>
    requires TokenOk(t)
  {
    match t
    case Lit(bytes) => [|bytes| - 1] + bytes
    case Ref(len, dist) =>
      var hi, lo := (dist - 1) / 256, (dist - 1) % 256;
      if len - 2 < 7 then [(len - 2) * 32 + hi, lo] else [7 * 32 + hi, len - 9, lo]
  }

  function CodeAll(ts: seq<Token>): seq<int>
    requires AllOk(ts)
  {
    if ts == [] then [] else Code(ts[0]) + CodeAll(ts[1..])
  }

  // ---------------------------------------------------------------- decoding

  /** The token at the start of the input with the bytes it takes, if it is whole. */
  datatype Head = Head(t: Token, n: int) | Cut(t: Token)

  /** The loop's view of the bytes at i.  A cut token still says how much it would produce: the room
      for literals is checked before the input is. */
  function HeadAt(input: seq<int>, i: int): (h: Head)
    requires 0 <= i < |input|
    ensures TokenOk(h.t) && (h.Head? ==> 0 < h.n && i + h.n <= |input|)
  {
    var ctrl := U8(input[i]);
    if ctrl < 32 then
      if i + 2 + ctrl <= |input| then Head(Lit(input[i + 1..i + 2 + ctrl]), ctrl + 2)
      else Cut(Lit(seq(ctrl + 1, _ => 0)))
    else
      var len, hi := ctrl / 32, ctrl % 32;
      if len < 7 then
        if i + 1 >= |input| then Cut(Ref(3, 1)) else Head(Ref(len + 2, hi * 256 + U8(input[i + 1]) + 1), 2)
      else
        if i + 2 >= |input| then Cut(Ref(3, 1))
          else Head(Ref(len + U8(input[i + 1]) + 2, hi * 256 + U8(input[i + 2]) + 1), 3)
  }

  /** What the decompressor makes of the input from i on. */
  function Decode(input: seq<int>, i: int, out: seq<int>, cap: int): Result
    requires 0 <= i <= |input|
    decreases |input| - i
  {
    if i == |input| then Done(out)
    else
      match HeadAt(input, i)
      case Cut(t) => if t.Lit? && |out| + |t.bytes| > cap then TooBig else Invalid
      case Head(t, n) =>
        var r := Expand([t], out, cap);
        if r.Done? then Decode(input, i + n, r.out, cap) else r
  }

  lemma HeadOfLit(bytes: seq<int>, pre: seq<int>, rest: seq<int>)
    requires 1 <= |bytes| <= 32
    ensures HeadAt(pre + Code(Lit(bytes)) + rest, |pre|) == Head(Lit(bytes), |bytes| + 1)
  {
    var input, i := pre + Code(Lit(bytes)) + rest, |pre|;
    assert input[i] == |bytes| - 1;
    assert input[i + 1..i + 1 + |bytes|] == bytes;
  }

  lemma RefBytes(len: int, dist: int)
    requires TokenOk(Ref(len, dist))
    ensures var c, hi := Code(Ref(len, dist)), (dist - 1) / 256;
            && 0 <= hi < 32 && hi * 256 + U8(c[|c| - 1]) + 1 == dist
            && (len < 9 ==> |c| == 2 && U8(c[0]) / 32 == len - 2 && U8(c[0]) % 32 == hi)
            && (len >= 9 ==> |c| == 3 && U8(c[0]) / 32 == 7 && U8(c[0]) % 32 == hi && U8(c[1]) == len - 9)
  {
  }

  lemma HeadOfCode(t: Token, pre: seq<int>, rest: seq<int>)
    requires TokenOk(t)
    ensures Code(t) != [] && HeadAt(pre + Code(t) + rest, |pre|) == Head(t, |Code(t)|)
  {
    match t
    case Lit(bytes) => HeadOfLit(bytes, pre, rest);
    case Ref(len, dist) =>
      RefBytes(len, dist);
      hide Code, U8;
      var input, c := pre + Code(t) + rest, Code(t);
      assert input[|pre|] == c[0] && input[|pre| + 1] == c[1] && (|c| == 3 ==> input[|pre| + 2] == c[2]);
  }

  lemma ExpandOne(t: Token, ts: seq<Token>, out: seq<int>, cap: int)
    requires TokenOk(t) && AllOk(ts)
    ensures AllOk([t] + ts)
    ensures var r := Expand([t], out, cap); Expand([t] + ts, out, cap) == if r.Done? then Expand(ts, r.out, cap) else r
  {
    assert ([t] + ts)[1..] == ts && [t][1..] == [];
  }

  lemma DecodeOne(input: seq<int>, i: int, out: seq<int>, cap: int, t: Token, n: int)
    requires 0 <= i < |input| && HeadAt(input, i) == Head(t, n)
    ensures var r := Expand([t], out, cap);
            Decode(input, i, out, cap) == if r.Done? then Decode(input, i + n, r.out, cap) else r
  {
    hide HeadAt, TokenOk;
  }

  /** Decoding an encoded token list is what the tokens say, errors included. */
  lemma {:induction false} DecodeCodes(pre: seq<int>, ts: seq<Token>, out: seq<int>, cap: int)
    requires AllOk(ts)
    ensures Decode(pre + CodeAll(ts), |pre|, out, cap) == Expand(ts, out, cap)
    decreases |ts|
  {
    hide HeadAt, TokenOk, Code, Decode, Expand;
    if ts == [] {
      NoTokens(pre, out, cap);
    } else {
      var t, rest := ts[0], CodeAll(ts[1..]);
      var input := pre + CodeAll(ts);
      assert input == pre + Code(t) + rest;
      HeadOfCode(t, pre, rest);
      DecodeOne(input, |pre|, out, cap, t, |Code(t)|);
      ExpandOne(t, ts[1..], out, cap);
      assert [t] + ts[1..] == ts;
      var r := Expand([t], out, cap);
      if r.Done? { DecodeCodes(pre + Code(t), ts[1..], r.out, cap); }
    }
  }

  lemma NoTokens(pre: seq<int>, out: seq<int>, cap: int)
    ensures Decode(pre + CodeAll([]), |pre|, out, cap) == Done(out) == Expand([], out, cap)
  {
  }

  lemma HeadIsCode(input: seq<int>, i: int)
    requires 0 <= i < |input| && HeadAt(input, i).Head? && forall b | b in input :: 0 <= b < 256
    ensures var h := HeadAt(input, i); input[i..i + h.n] == Code(h.t)
  {
    hide TokenOk;
    var h := HeadAt(input, i);
    forall k | i <= k < i + h.n ensures 0 <= input[k] < 256 { assert input[k] in input; }
    if h.t.Ref? { RefIsCode(input, i); } else { LitIsCode(input, i); }
  }

  lemma LitIsCode(input: seq<int>, i: int)
    requires 0 <= i < |input| && 0 <= input[i] < 256 && HeadAt(input, i).Head? && HeadAt(input, i).t.Lit?
    ensures var h := HeadAt(input, i); input[i..i + h.n] == Code(h.t)
  {
    hide TokenOk;
    var h := HeadAt(input, i);
    assert input[i..i + h.n] == [input[i]] + input[i + 1..i + h.n];
  }

  lemma RefIsCode(input: seq<int>, i: int)
    requires 0 <= i < |input| && HeadAt(input, i).Head? && HeadAt(input, i).t.Ref?
    requires forall k | i <= k < i + HeadAt(input, i).n :: 0 <= input[k] < 256
    ensures var h := HeadAt(input, i); input[i..i + h.n] == Code(h.t)
  {
    hide TokenOk;
    var h := HeadAt(input, i);
    var c := Code(h.t);
    assert |c| == h.n && c[0] == input[i] && c[1] == input[i + 1] && (h.n == 3 ==> c[2] == input[i + 2]);
  }

  /** The tokens of an input that decodes. */
  function Tokens(input: seq<int>, i: int): (ts: seq<Token>)
    requires 0 <= i <= |input|
    ensures AllOk(ts)
    decreases |input| - i
  {
    if i == |input| || HeadAt(input, i).Cut? then [] else [HeadAt(input, i).t] + Tokens(input, i + HeadAt(input, i).n)
  }

  /** Whatever is decoded without an error is the text of a token list. */
  lemma {:induction false} DecodedIsCode(input: seq<int>, i: int, out: seq<int>, cap: int)
    requires 0 <= i <= |input| && Decode(input, i, out, cap).Done? && forall b | b in input :: 0 <= b < 256
    ensures input[i..] == CodeAll(Tokens(input, i)) && Decode(input, i, out, cap) == Expand(Tokens(input, i), out, cap)
    decreases |input| - i
  {
    hide HeadAt, TokenOk, Code;
    if i < |input| {
      var h := HeadAt(input, i);
      var r := Expand([h.t], out, cap);
      DecodedIsCode(input, i + h.n, r.out, cap);
      HeadIsCode(input, i);
      ExpandOne(h.t, Tokens(input, i + h.n), out, cap);
      var ts := Tokens(input, i);
      assert ts[0] == h.t && ts[1..] == Tokens(input, i + h.n);
      assert input[i..] == input[i..i + h.n] + input[i + h.n..];
    }
  }

  lemma {:induction false} ExpandFits(ts: seq<Token>, out: seq<int>, cap: int)
    requires AllOk(ts) && |out| <= cap && Expand(ts, out, cap).Done?
    ensures var r := Expand(ts, out, cap).out; |out| <= |r| <= cap && r[..|out|] == out
    decreases |ts|
  {
    if ts != [] {
      var r := Expand([ts[0]], out, cap);
      assert [ts[0]] + ts[1..] == ts;
      ExpandOne(ts[0], ts[1..], out, cap);
      ExpandFits(ts[1..], r.out, cap);
      assert Expand([ts[0]][1..], r.out, cap) == r;
      assert r.out[..|out|] == out;
      var f := Expand(ts, out, cap).out;
      assert f[..|out|] == f[..|r.out|][..|out|];
    }
  }

  /** What is decoded without an error fits. */
  lemma {:induction false} DecodeFits(input: seq<int>, i: int, out: seq<int>, cap: int)
    requires 0 <= i <= |input| && |out| <= cap
    ensures Decode(input, i, out, cap).Done? ==> |out| <= |Decode(input, i, out, cap).out| <= cap
    decreases |input| - i
  {
    hide HeadAt;
    if i < |input| && HeadAt(input, i).Head? {
      var h := HeadAt(input, i);
      ExpandSingle(h.t, out, cap);
      var r := Expand([h.t], out, cap);
      if r.Done? { DecodeFits(input, i + h.n, r.out, cap); }
    }
  }

  /** A text that fits has the same expansion under any bound it fits. */
  lemma {:induction false} ExpandCap(ts: seq<Token>, out: seq<int>, cap: int, cap': int)
    requires AllOk(ts) && |out| <= cap && Expand(ts, out, cap).Done? && |Expand(ts, out, cap).out| <= cap'
             && |out| <= cap'
    ensures Expand(ts, out, cap') == Expand(ts, out, cap)
    decreases |ts|
  {
    if ts != [] {
      var r := Expand([ts[0]], out, cap);
      assert [ts[0]] + ts[1..] == ts;
      ExpandOne(ts[0], ts[1..], out, cap);
      ExpandOne(ts[0], ts[1..], out, cap');
      ExpandSingle(ts[0], out, cap);
      ExpandSingle(ts[0], out, cap');
      ExpandFits(ts[1..], r.out, cap);
      ExpandCap(ts[1..], r.out, cap, cap');
    }
  }

  // ---------------------------------------------------------------- in place

  lemma {:induction false} CopyBackSnoc(out: seq<int>, dist: int, n: nat)
    requires 1 <= dist <= |out|
    ensures var r := CopyBack(out, dist, n); CopyBack(out, dist, n + 1) == r + [r[|r| - dist]]
    decreases n
  {
    if n > 0 { CopyBackSnoc(out + [out[|out| - dist]], dist, n - 1); }
  }

  /** The copying loop of a literal run. */
  method CopyLiterals(inp: array<int>, ip: int, outp: array<int>, op: int, n: int)
    requires inp != outp && 0 <= ip && ip + n <= inp.Length && 0 <= op && op + n <= outp.Length && n >= 0
    modifies outp
    ensures outp[..op + n] == old(outp[..op]) + inp[ip..ip + n] && outp[op + n..] == old(outp[op + n..])
  {
    var k := 0;
    while k < n
      invariant 0 <= k <= n
      invariant outp[..op + k] == old(outp[..op]) + inp[ip..ip + k] && outp[op + k..] == old(outp[op + k..])
    {
      outp[op + k] := inp[ip + k];
      k := k + 1;
      assert outp[..op + k] == outp[..op + k - 1] + [inp[ip + k - 1]];
      assert outp[op + k..] == old(outp[op + k - 1..])[1..];
    }
  }

  /** The copying loop of a back reference: it may read what it has just written. */
  method CopyReference(outp: array<int>, op: int, ref: int, n: int)
    requires 0 <= ref < op && op + n <= outp.Length && n >= 0
    modifies outp
    ensures outp[..op + n] == CopyBack(old(outp[..op]), op - ref, n) && outp[op + n..] == old(outp[op + n..])
  {
    ghost var text, dist := outp[..op], op - ref;
    var k := 0;
    while k < n
      invariant 0 <= k <= n
      invariant outp[..op + k] == CopyBack(text, dist, k) && outp[op + k..] == old(outp[op + k..])
    {
      CopyBackSnoc(text, dist, k);
      assert outp[ref + k] == outp[..op + k][op + k - dist];
      outp[op + k] := outp[ref + k];
      k := k + 1;
      assert outp[..op + k] == outp[..op + k - 1] + [outp[op + k - 1]];
      assert outp[op + k..] == old(outp[op + k - 1..])[1..];
    }
  }

  /** A turn of the main loop from (ip, op) to (ip', op'), or a return with 0. */
  ghost predicate Turned(input: seq<int>, ip: int, text: seq<int>, cap: int, ok: bool, ip': int, text': seq<int>)
    requires 0 <= ip <= |input|
  {
    if ok then ip < ip' <= |input| && Decode(input, ip, text, cap) == Decode(input, ip', text', cap)
    else !Decode(input, ip, text, cap).Done?
  }

  lemma LitTurned(input: seq<int>, ip: int, text: seq<int>, cap: int)
    requires 0 <= ip < |input| && |text| <= cap && U8(input[ip]) < 32
    ensures var n := U8(input[ip]) + 1;
            if |text| + n > cap || ip + 1 + n > |input| then Turned(input, ip, text, cap, false, ip, text)
            else Turned(input, ip, text, cap, true, ip + 1 + n, text + input[ip + 1..ip + 1 + n])
  {
    hide Decode, U8;
    DecodeLit(input, ip, text, cap);
  }

  method LiteralRun(inp: array<int>, ip: int, outp: array<int>, op: int) returns (ok: bool, ip': int, op': int)
    requires inp != outp && 0 <= ip < inp.Length && 0 <= op <= outp.Length && U8(inp[ip]) < 32
    modifies outp
    ensures op <= op' <= outp.Length && outp[op'..] == old(outp[op'..])
    ensures Turned(inp[..], ip, old(outp[..op]), outp.Length, ok, ip', outp[..op'])
  {
    ok, ip', op' := false, ip, op;
    ghost var input, text := inp[..], outp[..op];
    LitTurned(input, ip, text, outp.Length);
    hide *;
    var ctrl := U8(inp[ip]) + 1;
    if op + ctrl > outp.Length { return; }
    if ip + 1 + ctrl > inp.Length { return; }
    ghost var rest, run := outp[op + ctrl..], input[ip + 1..ip + 1 + ctrl];
    assert inp[ip + 1..ip + 1 + ctrl] == run;
    CopyLiterals(inp, ip + 1, outp, op, ctrl);
    ok, ip', op' := true, ip + 1 + ctrl, op + ctrl;
    assert outp[op'..] == rest && outp[..op'] == text + run && inp[..] == input;
  }

  /** The length of a back reference and where it starts, if the input goes that far. */
  method ReadReference(inp: array<int>, ip: int, op: int) returns (ok: bool, ip': int, len: int, ref: int)
    requires 0 <= ip < inp.Length && U8(inp[ip]) >= 32
    ensures var (k, n) := RefAt(inp[..], ip);
            && (ok <==> k < inp.Length)
            && (ok ==> ip' == k + 1 > ip + 1 && len == n >= 1 && op - ref == DistAt(inp[..], ip, k))
  {
    ok := false;
    var ctrl := U8(inp[ip]);
    len, ref := ctrl / 32, op - ctrl % 32 * 256 - 1;
    ip' := ip + 1;
    if ip' >= inp.Length { return; }
    if len == 7 {
      len := len + U8(inp[ip']);
      ip' := ip' + 1;
      if ip' >= inp.Length { return; }
    }
    ref := ref - U8(inp[ip']);
    ip' := ip' + 1;
    ok := true;
  }

  method BackReference(inp: array<int>, ip: int, outp: array<int>, op: int) returns (ok: bool, ip': int, op': int)
    requires inp != outp && 0 <= ip < inp.Length && 0 <= op <= outp.Length && U8(inp[ip]) >= 32
    modifies outp
    ensures op <= op' <= outp.Length && outp[op'..] == old(outp[op'..])
    ensures Turned(inp[..], ip, old(outp[..op]), outp.Length, ok, ip', outp[..op'])
  {
    hide Decode, CopyBack, U8, RefAt, DistAt, Turned;
    ghost var input, text, cap := inp[..], outp[..op], outp.Length;
    var len, ref;
    ok, ip', len, ref := ReadReference(inp, ip, op);
    op' := op;
    RefTurns(input, ip, text, cap);
    if !ok { return; }
    ok := op + len + 2 <= outp.Length && ref >= 0;
    if !ok { return; }
    ghost var rest := outp[op + len + 2..];
    CopyReference(outp, op, ref, len + 2);
    op' := op + len + 2;
    assert outp[op'..] == rest && inp[..] == input;
  }

  /** The turn a back reference makes. */
  lemma RefTurns(input: seq<int>, i: int, text: seq<int>, cap: int)
    requires 0 <= i < |input| && U8(input[i]) >= 32
    ensures var (k, len) := RefAt(input, i);
            if k >= |input| then forall x, t :: Turned(input, i, text, cap, false, x, t)
            else
              var dist := DistAt(input, i, k);
              && 1 <= dist && i < k
              && if |text| + len + 2 > cap || dist > |text| then forall x, t :: Turned(input, i, text, cap, false, x, t)
                 else Turned(input, i, text, cap, true, k + 1, CopyBack(text, dist, len + 2))
  {
    RefStartsBack(input, i);
    DecodeRef(input, i, text, cap);
    hide Decode, CopyBack, U8, RefAt, DistAt;
  }

  lemma RefStartsBack(input: seq<int>, i: int)
    requires 0 <= i < |input|
    ensures var (k, _) := RefAt(input, i); i < k && (k < |input| ==> DistAt(input, i, k) >= 1)
  {
  }

  /** lzf_decompress: the length of the text, or 0. */
  method LzfDecompress(inp: array<int>, outp: array<int>) returns (n: int)
    requires inp != outp && inp.Length > 0
    modifies outp
    ensures match Decode(inp[..], 0, [], outp.Length)
            case Done(text) => n == |text| <= outp.Length && outp[..n] == text && outp[n..] == old(outp[n..])
            case _ => n == 0
  {
    hide Decode;
    ghost var input, cap := inp[..], outp.Length;
    var ip, op := 0, 0;
    while ip < inp.Length
      invariant 0 <= ip <= inp.Length && 0 <= op <= cap && inp[..] == input
      invariant Decode(input, 0, [], cap) == Decode(input, ip, outp[..op], cap)
      invariant outp[op..] == old(outp[op..])
    {
      var ok;
      ghost var op0 := op;
      if U8(inp[ip]) < 32 {
        ok, ip, op := LiteralRun(inp, ip, outp, op);
      } else {
        ok, ip, op := BackReference(inp, ip, outp, op);
      }
      if !ok { return 0; }
      assert old(outp[op..]) == old(outp[op0..])[op - op0..];
    }
    DecodedAll(input, outp[..op], cap);
    n := op;
  }

  lemma DecodedAll(input: seq<int>, out: seq<int>, cap: int)
    ensures Decode(input, |input|, out, cap) == Done(out)
  {
  }

  lemma ExpandSingle(t: Token, out: seq<int>, cap: int)
    requires TokenOk(t)
    ensures Expand([t], out, cap) ==
            match t
            case Lit(bytes) => if |out| + |bytes| > cap then TooBig else Done(out + bytes)
            case Ref(len, dist) =>
              if |out| + len > cap then TooBig else if dist > |out| then Invalid else Done(CopyBack(out, dist, len))
  {
    assert [t][1..] == [];
  }

  lemma DecodeLit(input: seq<int>, i: int, out: seq<int>, cap: int)
    requires 0 <= i < |input| && U8(input[i]) < 32
    ensures var n := U8(input[i]) + 1;
            Decode(input, i, out, cap) ==
            if |out| + n > cap then TooBig
            else if i + 1 + n > |input| then Invalid
            else Decode(input, i + 1 + n, out + input[i + 1..i + 1 + n], cap)
  {
    ExpandSingle(HeadAt(input, i).t, out, cap);
  }

  /** The index of the last byte of the reference at i, and the length it has but for 2. */
  function RefAt(input: seq<int>, i: int): (int, int)
    requires 0 <= i < |input|
  {
    var len := U8(input[i]) / 32;
    if len == 7 then (i + 2, if i + 1 < |input| then len + U8(input[i + 1]) else len) else (i + 1, len)
  }

  function DistAt(input: seq<int>, i: int, k: int): int
    requires 0 <= i < |input| && 0 <= k < |input|
  {
    U8(input[i]) % 32 * 256 + U8(input[k]) + 1
  }

  lemma DecodeRef(input: seq<int>, i: int, out: seq<int>, cap: int)
    requires 0 <= i < |input| && U8(input[i]) >= 32
    ensures var (k, len) := RefAt(input, i);
            Decode(input, i, out, cap) ==
            if k >= |input| then Invalid
            else
              var dist := DistAt(input, i, k);
              if |out| + len + 2 > cap then TooBig
              else if dist > |out| then Invalid
              else Decode(input, k + 1, CopyBack(out, dist, len + 2), cap)
  {
    hide HeadAt, U8, RefAt, DistAt, CopyBack, Decode, Expand, TokenOk;
    HeadRef(input, i);
    var h, k := HeadAt(input, i), RefAt(input, i).0;
    if k >= |input| {
      DecodeCut(input, i, out, cap);
    } else {
      DecodeOne(input, i, out, cap, h.t, h.n);
      ExpandSingle(h.t, out, cap);
    }
  }

  lemma DecodeCut(input: seq<int>, i: int, out: seq<int>, cap: int)
    requires 0 <= i < |input| && HeadAt(input, i).Cut?
    ensures var t := HeadAt(input, i).t;
            Decode(input, i, out, cap) == if t.Lit? && |out| + |t.bytes| > cap then TooBig else Invalid
  {
    hide HeadAt;
  }

  lemma HeadRef(input: seq<int>, i: int)
    requires 0 <= i < |input| && U8(input[i]) >= 32
    ensures var (k, len) := RefAt(input, i);
            && i < k && 1 <= len
            && HeadAt(input, i) ==
               if k >= |input| then Cut(Ref(3, 1))
               else Head(Ref(len + 2, DistAt(input, i, k)), k + 1 - i)
  {
  }
}
