/** DUMP payloads as Redis writes them, and what the decoder makes of them. */
module RdbRoundTrip {
  import opened Wrappers
  import opened RdbMachine
  import Z = Ziplist
  import Lzf

  // ---------------------------------------------------------------- the format

  datatype LenForm = Len6 | Len14 | Len32

  predicate LenFits(f: LenForm, n: int) {
    0 <= n < match f case Len6 => 64 case Len14 => 0x4000 case Len32 => 0x1_0000_0000
  }

  function LenCode(f: LenForm, n: int): seq<int> {
    match f
    case Len6 => [n]
    case Len14 => [64 + n / 256, n % 256]
    case Len32 => [128, n / 0x100_0000, n / 0x1_0000 % 256, n / 256 % 256, n % 256]
  }

  /** A string of the dump in the form chosen for it. */
  datatype Str =
    | Plain(form: LenForm, bytes: seq<int>)
    | Int8(v: int) | Int16(v: int) | Int32(v: int)
    | Compressed(cForm: LenForm, rForm: LenForm, tokens: seq<Lzf.Token>)

  /** The text of a compressed string. */
  function Text(ts: seq<Lzf.Token>): Option<seq<int>> {
    if !Lzf.AllOk(ts) then None
    else match Lzf.Expand(ts, [], 0xFFFF_FFFF) case Done(text) => Some(text) case _ => None
  }

  predicate StrOk(s: Str) {
    match s
    case Plain(form, bytes) => LenFits(form, |bytes|)
    case Int8(v) => -128 <= v < 128
    case Int16(v) => -0x8000 <= v < 0x8000
    case Int32(v) => -0x8000_0000 <= v < 0x8000_0000
    case Compressed(cForm, rForm, ts) =>
      && ts != [] && Text(ts).Some? && LenFits(cForm, |Lzf.CodeAll(ts)|) && LenFits(rForm, |Text(ts).value|)
  }

  function StrCode(s: Str): seq<int>
    requires StrOk(s)
  {
    match s
    case Plain(form, bytes) => LenCode(form, |bytes|) + bytes
    case Int8(v) => [192] + Z.LeBytes(v, 1)
    case Int16(v) => [193] + Z.LeBytes(v, 2)
    case Int32(v) => [194] + Z.LeBytes(v, 4)
    case Compressed(cForm, rForm, ts) =>
      var code := Lzf.CodeAll(ts);
      [195] + LenCode(cForm, |code|) + LenCode(rForm, |Text(ts).value|) + code
  }

  /** What the decoder makes of it: an 8-bit integer loses its sign. */
  function Decoded(s: Str): Value
    requires StrOk(s)
  {
    match s
    case Plain(_, bytes) => Bytes(bytes)
    case Int8(v) => Int(v % 256)
    case Int16(v) => Int(v)
    case Int32(v) => Int(v)
    case Compressed(_, _, ts) => Bytes(Text(ts).value)
  }

  function Meaning(s: Str): Value
    requires StrOk(s)
  {
    match s case Int8(v) => Int(v) case _ => Decoded(s)
  }

  /** An integer string is decoded right exactly if it is not a negative one in 8 bits. */
  lemma DecodedIsMeaning(s: Str)
    requires StrOk(s)
    ensures Decoded(s) == Meaning(s) <==> !(s.Int8? && s.v < 0)
  {
  }

  // ---------------------------------------------------------------- strings

  /** A builder working on top of others. */
  function Working(below: seq<Frame>, f: Frame, input: seq<int>, out: seq<Object>): Config {
    Config(below + [f], input, Nothing, out)
  }

  function Done(below: seq<Frame>, v: Value, input: seq<int>, out: seq<Object>): Config {
    Config(below, input, RetValue(v), out)
  }

  lemma TopOf(below: seq<Frame>, f: Frame, input: seq<int>, out: seq<Object>)
    ensures var c := Working(below, f, input, out);
            c.stack != [] && Top(c) == f && Below(c) == below && forall g ::
              SetTop(c, g) == Working(below, g, input, out)
  {
  }

  lemma LenBack(f: LenForm, n: int, rest: seq<int>)
    requires LenFits(f, n)
    ensures var c := LenCode(f, n); StoreLen(c + rest) == Some((|c|, false, n)) && (c + rest)[|c|..] == rest
  {
    var c := LenCode(f, n);
    var s := c + rest;
    assert s[0] == c[0] && (|c| > 1 ==> s[1] == c[1]);
    match f
    case Len6 =>
    case Len14 => Z.ShortHead(n);
    case Len32 =>
      assert s[2] == c[2] && s[3] == c[3] && s[4] == c[4];
      Z.LongHead(n);
  }

  /** A builder reads its length. */
  lemma LengthRuns(below: seq<Frame>, f: Frame, form: LenForm, n: int, rest: seq<int>, out: seq<Object>)
    requires ReadsLen(f) && LenFits(form, n)
    ensures Run(Working(below, f, LenCode(form, n) + rest, out)) == Run(Working(below, Sized(f, false, n), rest, out))
  {
    hide Run, StoreLen, Sized, LenCode, LenFits;
    var input := LenCode(form, n) + rest;
    LenBack(form, n, rest);
    TopOf(below, f, input, out);
    TopOf(below, f, rest, out);
    RunUnfolds(Working(below, f, input, out));
  }

  /** An encoded string tells its encoding. */
  lemma EncodingRuns(below: seq<Frame>, enc: int, rest: seq<int>, out: seq<Object>)
    requires 0 <= enc <= 3
    ensures Run(Working(below, NEW_STR, [192 + enc] + rest, out))
            == Run(Working(below, StrFrame(StrEnc, enc, []), rest, out))
  {
    hide Run;
    var input := [192 + enc] + rest;
    assert input[1..] == rest;
    TopOf(below, NEW_STR, input, out);
    TopOf(below, NEW_STR, rest, out);
    RunUnfolds(Working(below, NEW_STR, input, out));
  }

  lemma IntRuns(below: seq<Frame>, enc: int, v: int, rest: seq<int>, out: seq<Object>)
    requires 0 <= enc <= 2
    ensures var b := Z.LeBytes(v, IntWidth(enc));
            Run(Working(below, StrFrame(StrEnc, enc, []), b + rest, out))
            == Run(Done(below, Int(IntOf(b, enc)), rest, out))
  {
    hide Run, IntOf;
    var b := Z.LeBytes(v, IntWidth(enc));
    var f, input := StrFrame(StrEnc, enc, []), b + rest;
    assert input[..|b|] == b && input[|b|..] == rest;
    TopOf(below, f, input, out);
    RunUnfolds(Working(below, f, input, out));
  }

  lemma IntBack(enc: int, v: int)
    requires enc == 0 ==> -128 <= v < 128
    requires enc == 1 ==> -0x8000 <= v < 0x8000
    requires enc == 2 ==> -0x8000_0000 <= v < 0x8000_0000
    requires 0 <= enc <= 2
    ensures IntOf(Z.LeBytes(v, IntWidth(enc)), enc) == if enc == 0 then v % 256 else v
  {
    Z.Powers();
    if enc == 0 {
      assert Z.LeBytes(v, 1)[1..] == [];
      assert Z.Le([]) == 0;
    } else {
      Z.SignedBack(v, IntWidth(enc));
    }
  }

  /** All bytes of a string or compressed string are there. */
  lemma DataRuns(below: seq<Frame>, f: Frame, data: seq<int>, v: Value, rest: seq<int>, out: seq<Object>)
    requires (f.StrFrame? && f.strState == StrPlain) || (f.LzfFrame? && f.lzfState == LzfData && f.cLen != 0)
    requires f.got == [] && Target(f) == |data| && Filled(f.(got := data)) == Some(v)
    ensures Run(Working(below, f, data + rest, out)) == Run(Done(below, v, rest, out))
  {
    hide Run, Filled;
    var input := data + rest;
    TopOf(below, f, input, out);
    RunUnfolds(Working(below, f, input, out));
    DataIsSeen(Working(below, f, input, out));
    assert [] + input == input && input[..|data|] == data && input[|data|..] == rest;
  }

  lemma Inflates(ts: seq<Lzf.Token>)
    requires Lzf.AllOk(ts) && ts != [] && Text(ts).Some?
    ensures var code, text := Lzf.CodeAll(ts), Text(ts).value;
            code != [] && Filled(LzfFrame(LzfData, |code|, |text|, code)) == Some(Bytes(text))
  {
    var code, text := Lzf.CodeAll(ts), Text(ts).value;
    assert [] + code == code;
    Lzf.ExpandCap(ts, [], 0xFFFF_FFFF, |text|);
    Lzf.DecodeCodes([], ts, [], |text|);
    Lzf.HeadOfCode(ts[0], [], []);
    assert text + [] == text && seq(0, _ => -1) == [];
  }

  lemma StrRuns(below: seq<Frame>, s: Str, rest: seq<int>, out: seq<Object>)
    requires StrOk(s)
    ensures Run(Working(below, NEW_STR, StrCode(s) + rest, out)) == Run(Done(below, Decoded(s), rest, out))
  {
    hide Run, LenCode, LenFits, Filled, Text, Working, Done;
    match s
    case Plain(form, bytes) =>
      assert StrCode(s) + rest == LenCode(form, |bytes|) + (bytes + rest);
      LengthRuns(below, NEW_STR, form, |bytes|, bytes + rest, out);
      PlainFills(bytes);
      DataRuns(below, StrFrame(StrPlain, |bytes|, []), bytes, Bytes(bytes), rest, out);
    case Int8(v) => SmallRuns(below, 0, v, rest, out);
    case Int16(v) => SmallRuns(below, 1, v, rest, out);
    case Int32(v) => SmallRuns(below, 2, v, rest, out);
    case Compressed(cForm, rForm, ts) => CompressedRuns(below, s, rest, out);
  }

  lemma PlainFills(bytes: seq<int>)
    ensures Filled(StrFrame(StrPlain, |bytes|, bytes)) == Some(Bytes(bytes))
  {
  }

  lemma SmallRuns(below: seq<Frame>, enc: int, v: int, rest: seq<int>, out: seq<Object>)
    requires enc == 0 ==> -128 <= v < 128
    requires enc == 1 ==> -0x8000 <= v < 0x8000
    requires enc == 2 ==> -0x8000_0000 <= v < 0x8000_0000
    requires 0 <= enc <= 2
    ensures Run(Working(below, NEW_STR, [192 + enc] + Z.LeBytes(v, IntWidth(enc)) + rest, out))
            == Run(Done(below, Int(if enc == 0 then v % 256 else v), rest, out))
  {
    hide Run, IntOf, Working, Done;
    var b := Z.LeBytes(v, IntWidth(enc));
    assert [192 + enc] + b + rest == [192 + enc] + (b + rest);
    EncodingRuns(below, enc, b + rest, out);
    IntRuns(below, enc, v, rest, out);
    IntBack(enc, v);
  }

  lemma CompressedRuns(below: seq<Frame>, s: Str, rest: seq<int>, out: seq<Object>)
    requires StrOk(s) && s.Compressed?
    ensures Run(Working(below, NEW_STR, StrCode(s) + rest, out)) == Run(Done(below, Decoded(s), rest, out))
  {
    hide Run, LenCode, LenFits, Filled, Text;
    TextOk(s.tokens);
    var code, text := Lzf.CodeAll(s.tokens), Text(s.tokens).value;
    var str, lzf := StrFrame(StrEnc, 3, []), below + [StrFrame(StrEnc, 3, [])];
    var a, b := LenCode(s.cForm, |code|), LenCode(s.rForm, |text|);
    assert StrCode(s) + rest == [192 + 3] + (a + (b + (code + rest)));
    EncodingRuns(below, 3, a + (b + (code + rest)), out);
    TopOf(below, str, a + (b + (code + rest)), out);
    RunUnfolds(Working(below, str, a + (b + (code + rest)), out));
    LengthRuns(lzf, NEW_LZF, s.cForm, |code|, b + (code + rest), out);
    LengthRuns(lzf, LzfFrame(LzfRaw, |code|, 0, []), s.rForm, |text|, code + rest, out);
    Inflates(s.tokens);
    DataRuns(lzf, LzfFrame(LzfData, |code|, |text|, []), code, Bytes(text), rest, out);
    TopOf(below, str, rest, out);
    RunUnfolds(Done(lzf, Bytes(text), rest, out));
  }

  lemma TextOk(ts: seq<Lzf.Token>)
    requires Text(ts).Some?
    ensures Lzf.AllOk(ts)
  {
  }

  // ---------------------------------------------------------------- objects

  /** A dumped object.  The ziplist forms are strings that hold a ziplist. */
  datatype Dump =
    | DumpStr(s: Str)
    | DumpList(ty: int, form: LenForm, elems: seq<Str>)
    | DumpHash(ty: int, form: LenForm, pairs: seq<(Str, Str)>)
    | DumpZipList(s: Str, header: seq<int>, es: seq<Z.Entry>)
    | DumpZipHash(ty: int, s: Str, header: seq<int>, es: seq<Z.Entry>)

  predicate AllStrs(elems: seq<Str>) { elems == [] || (StrOk(elems[0]) && AllStrs(elems[1..])) }

  predicate AllPairs(pairs: seq<(Str, Str)>) {
    pairs == [] || (StrOk(pairs[0].0) && StrOk(pairs[0].1) && AllPairs(pairs[1..]))
  }

  predicate HoldsZiplist(s: Str, header: seq<int>, es: seq<Z.Entry>) {
    StrOk(s) && |header| == 10 && Z.AllOk(es) && Decoded(s) == Bytes(Z.Ziplist(header, es))
  }

  predicate DumpOk(d: Dump) {
    match d
    case DumpStr(s) => StrOk(s)
    case DumpList(ty, form, elems) => (ty == 1 || ty == 2) && LenFits(form, |elems|) && AllStrs(elems)
    case DumpHash(ty, form, pairs) => (ty == 3 || ty == 4) && LenFits(form, |pairs|) && AllPairs(pairs)
    case DumpZipList(s, header, es) => HoldsZiplist(s, header, es)
    case DumpZipHash(ty, s, header, es) => (ty == 12 || ty == 13) && HoldsZiplist(s, header, es) && |es| % 2 == 0
  }

  /** A list or hash without elements; Redis itself deletes those. */
  predicate Empty(d: Dump) { (d.DumpList? && d.elems == []) || (d.DumpHash? && d.pairs == []) }

  function StrsCode(elems: seq<Str>): seq<int>
    requires AllStrs(elems)
  {
    if elems == [] then [] else StrCode(elems[0]) + StrsCode(elems[1..])
  }

  function PairsCode(pairs: seq<(Str, Str)>): seq<int>
    requires AllPairs(pairs)
  {
    if pairs == [] then [] else StrCode(pairs[0].0) + StrCode(pairs[0].1) + PairsCode(pairs[1..])
  }

  /** The payload without its version and checksum. */
  function Payload(d: Dump): seq<int>
    requires DumpOk(d)
  {
    match d
    case DumpStr(s) => [0] + StrCode(s)
    case DumpList(ty, form, elems) => [ty] + (LenCode(form, |elems|) + StrsCode(elems))
    case DumpHash(ty, form, pairs) => [ty] + (LenCode(form, |pairs|) + PairsCode(pairs))
    case DumpZipList(s, _, _) => [10] + StrCode(s)
    case DumpZipHash(ty, s, _, _) => [ty] + StrCode(s)
  }

  function DecodedAll(elems: seq<Str>): seq<Value>
    requires AllStrs(elems)
  {
    if elems == [] then [] else [Decoded(elems[0])] + DecodedAll(elems[1..])
  }

  function DecodedPairs(pairs: seq<(Str, Str)>): seq<(Value, Value)>
    requires AllPairs(pairs)
  {
    if pairs == [] then [] else [(Decoded(pairs[0].0), Decoded(pairs[0].1))] + DecodedPairs(pairs[1..])
  }

  function ObjectFor(d: Dump): Object
    requires DumpOk(d)
  {
    match d
    case DumpStr(s) => StrObject(Decoded(s))
    case DumpList(_, _, elems) => ListObject(DecodedAll(elems))
    case DumpHash(_, _, pairs) => HashObject(DecodedPairs(pairs))
    case DumpZipList(_, _, es) => ListObject(ValuesOfItems(Z.Items(es)))
    case DumpZipHash(_, _, _, es) => HashObject(Pairs(ValuesOfItems(Z.Items(es))))
  }

  /** A value made of an item of a ziplist. */
  predicate Is(v: Value, item: Z.Item) {
    match item case Str(b) => v == Bytes(b) case Num(n) => v == Int(n)
  }

  /** The object of a ziplist payload, entry by entry: a list holds every string as its bytes and
      every number as that number, in order; a hash has them in turn as keys and values. */
  lemma ZiplistElements(d: Dump)
    requires DumpOk(d)
    ensures d.DumpZipList? ==>
              var o := ObjectFor(d);
              o.ListObject? && |o.vals| == |d.es| && forall i | 0 <= i < |d.es| :: Is(o.vals[i], d.es[i].item)
    ensures d.DumpZipHash? ==>
              var o := ObjectFor(d);
              && o.HashObject? && 2 * |o.kvs| == |d.es|
              && forall i | 0 <= i < |o.kvs| :: Is(o.kvs[i].0, d.es[2 * i].item) && Is(o.kvs[i].1, d.es[2 * i + 1].item)
  {
    if d.DumpZipList? || d.DumpZipHash? {
      var items := Z.Items(d.es);
      forall i | 0 <= i < |d.es| ensures Is(ValuesOfItems(items)[i], d.es[i].item) { Z.ItemAtIndex(d.es, i); }
      forall i | 0 <= i < |d.es| / 2
        ensures Pairs(ValuesOfItems(items))[i] == (ValuesOfItems(items)[2 * i], ValuesOfItems(items)[2 * i + 1])
      {
        PairsAt(ValuesOfItems(items), i);
      }
    }
  }

  lemma Pushes(below: seq<Frame>, f: Frame, input: seq<int>, out: seq<Object>)
    requires (f.ListFrame? && f.sized && |f.vals| < f.storeLen)
             || (f.HashFrame? && f.hashState != HashLen && |f.kvs| < f.storeLen)
    ensures Run(Working(below, f, input, out)) == Run(Working(below + [f], NEW_STR, input, out))
  {
    hide Run;
    TopOf(below, f, input, out);
    RunUnfolds(Working(below, f, input, out));
  }

  lemma ListDelivers(below: seq<Frame>, f: Frame, v: Value, tail: seq<int>, out: seq<Object>)
    requires f.ListFrame? && f.sized
    ensures Run(Done(below + [f], v, tail, out))
            == Run(if |f.vals| + 1 < f.storeLen then Working(below, f.(vals := f.vals + [v]), tail, out)
                   else Config(below, tail, RetObject(ListObject(f.vals + [v])), out))
  {
    hide Run;
    TopOf(below, f, tail, out);
    RunUnfolds(Done(below + [f], v, tail, out));
  }

  /** A list with the values it has and the strings it still expects. */
  lemma {:induction false} ListRuns(below: seq<Frame>, n: int, vals: seq<Value>, elems: seq<Str>, rest: seq<int>,
      out: seq<Object>)
    requires AllStrs(elems) && elems != [] && |vals| + |elems| == n
    ensures Run(Working(below, ListFrame(true, n, vals), StrsCode(elems) + rest, out))
            == Run(Config(below, rest, RetObject(ListObject(vals + DecodedAll(elems))), out))
    decreases |elems|
  {
    hide Run, StrCode, Decoded, StrOk, Working, Done;
    var f, tail, v := ListFrame(true, n, vals), StrsCode(elems[1..]) + rest, Decoded(elems[0]);
    assert StrsCode(elems) + rest == StrCode(elems[0]) + tail;
    Pushes(below, f, StrsCode(elems) + rest, out);
    StrRuns(below + [f], elems[0], tail, out);
    ListDelivers(below, f, v, tail, out);
    assert vals + DecodedAll(elems) == vals + [v] + DecodedAll(elems[1..]);
    if |elems| > 1 {
      ListRuns(below, n, vals + [v], elems[1..], rest, out);
    } else {
      assert [] + rest == rest && vals + [v] + [] == vals + [v];
    }
  }

  /** A hash between two pairs. */
  lemma {:induction false} HashRuns(below: seq<Frame>, n: int, key: Value, kvs: seq<(Value, Value)>,
                                    pairs: seq<(Str, Str)>, rest: seq<int>, out: seq<Object>)
    requires AllPairs(pairs) && pairs != [] && |kvs| + |pairs| == n
    ensures Run(Working(below, HashFrame(HashKey, n, key, kvs), PairsCode(pairs) + rest, out))
            == Run(Config(below, rest, RetObject(HashObject(kvs + DecodedPairs(pairs))), out))
    decreases |pairs|
  {
    hide Run, StrCode, Decoded, StrOk;
    var tail, k, v := PairsCode(pairs[1..]) + rest, Decoded(pairs[0].0), Decoded(pairs[0].1);
    PairRuns(below, n, key, kvs, pairs[0], tail, out);
    assert PairsCode(pairs) + rest == StrCode(pairs[0].0) + (StrCode(pairs[0].1) + tail);
    assert kvs + DecodedPairs(pairs) == kvs + [(k, v)] + DecodedPairs(pairs[1..]);
    if |pairs| > 1 {
      HashRuns(below, n, k, kvs + [(k, v)], pairs[1..], rest, out);
    } else {
      assert [] + rest == rest && kvs + [(k, v)] + [] == kvs + [(k, v)];
    }
  }

  lemma PairRuns(below: seq<Frame>, n: int, key: Value, kvs: seq<(Value, Value)>, pair: (Str, Str), tail: seq<int>,
      out: seq<Object>)
    requires StrOk(pair.0) && StrOk(pair.1) && |kvs| < n
    ensures var k, v := Decoded(pair.0), Decoded(pair.1);
            Run(Working(below, HashFrame(HashKey, n, key, kvs), StrCode(pair.0) + (StrCode(pair.1) + tail), out))
            == Run(if |kvs| + 1 < n then Working(below, HashFrame(HashKey, n, k, kvs + [(k, v)]), tail, out)
                   else Config(below, tail, RetObject(HashObject(kvs + [(k, v)])), out))
  {
    hide Run, StrCode, Decoded, StrOk;
    var k, mid := Decoded(pair.0), StrCode(pair.1) + tail;
    var f, g := HashFrame(HashKey, n, key, kvs), HashFrame(HashVal, n, k, kvs);
    Pushes(below, f, StrCode(pair.0) + mid, out);
    StrRuns(below + [f], pair.0, mid, out);
    TopOf(below, f, mid, out);
    RunUnfolds(Done(below + [f], k, mid, out));
    Pushes(below, g, mid, out);
    StrRuns(below + [g], pair.1, tail, out);
    TopOf(below, g, tail, out);
    RunUnfolds(Done(below + [g], Decoded(pair.1), tail, out));
  }

  /** A decoder between two payloads. */
  function Idle(input: seq<int>, out: seq<Object>): Config { Config([DumpFrame(false, 0)], input, Nothing, out) }

  lemma StartIsIdle(input: seq<int>, out: seq<Object>)
    ensures Run(Config([], input, Nothing, out)) == Run(Idle(input, out))
  {
    hide Run;
    RunUnfolds(Config([], input, Nothing, out));
    assert [] + [DumpFrame(false, 0)] == [DumpFrame(false, 0)];
  }

  /** The type byte, and the builder it calls for. */
  lemma TypeRuns(ty: int, input: seq<int>, out: seq<Object>)
    requires ty in {0, 1, 2, 3, 4, 10, 12, 13}
    ensures Run(Idle([ty] + input, out))
            == Run(Working([DumpFrame(true, ty)], if IsString(ty) then NEW_STR else if ty <= 2 then NEW_LIST
              else NEW_HASH, input, out))
  {
    hide Run;
    var f, g := DumpFrame(false, 0), DumpFrame(true, ty);
    assert [] + [f] == [f] && [] + [g] == [g] && ([ty] + input)[1..] == input;
    TopOf([], f, [ty] + input, out);
    TopOf([], f, input, out);
    TopOf([], g, input, out);
    RunUnfolds(Idle([ty] + input, out));
    RunUnfolds(Working([], g, input, out));
  }

  /** The callback gets the object. */
  lemma HandedOut(ty: int, r: Ret, o: Object, rest: seq<int>, out: seq<Object>)
    requires r != Nothing && Some(o) == if r.RetObject? then Some(r.o) else ObjectOf(ty, r.v)
    ensures Run(Config([DumpFrame(true, ty)], rest, r, out)) == Run(Idle(rest, out + [o]))
  {
    hide Run, ObjectOf;
    var c := Config([DumpFrame(true, ty)], rest, r, out);
    assert Below(c) == [];
    RunUnfolds(c);
    StartIsIdle(rest, out + [o]);
  }

  lemma ZiplistObject(s: Str, header: seq<int>, es: seq<Z.Entry>)
    requires HoldsZiplist(s, header, es)
    ensures ObjectOf(10, Decoded(s)) == Some(ListObject(ValuesOfItems(Z.Items(es))))
    ensures |es| % 2 == 0 ==> forall ty | ty == 12 || ty == 13 ::
                                ObjectOf(ty, Decoded(s)) == Some(HashObject(Pairs(ValuesOfItems(Z.Items(es)))))
  {
    hide Z.WalkFrom, Z.Ziplist, Pairs;
    Z.ZiplistBack(header, es, []);
    assert Z.Ziplist(header, es) + [] == Z.Ziplist(header, es);
  }

  lemma FullDumpRuns(d: Dump, rest: seq<int>, out: seq<Object>)
    requires DumpOk(d) && !Empty(d)
    ensures Run(Idle(Payload(d) + rest, out)) == Run(Idle(rest, out + [ObjectFor(d)]))
  {
    hide Run, Idle, StrCode, LenCode, LenFits, Decoded, StrOk, ObjectOf, HoldsZiplist, Pairs;
    match d
    case DumpStr(s) =>
      StringDumpRuns(0, s, ObjectFor(d), rest, out);
    case DumpList(ty, form, elems) =>
      var body := StrsCode(elems) + rest;
      assert Payload(d) + rest == [ty] + (LenCode(form, |elems|) + body);
      TypeRuns(ty, LenCode(form, |elems|) + body, out);
      LengthRuns([DumpFrame(true, ty)], NEW_LIST, form, |elems|, body, out);
      ListRuns([DumpFrame(true, ty)], |elems|, [], elems, rest, out);
      assert [] + DecodedAll(elems) == DecodedAll(elems);
      HandedOut(ty, RetObject(ObjectFor(d)), ObjectFor(d), rest, out);
    case DumpHash(ty, form, pairs) =>
      var body := PairsCode(pairs) + rest;
      assert Payload(d) + rest == [ty] + (LenCode(form, |pairs|) + body);
      TypeRuns(ty, LenCode(form, |pairs|) + body, out);
      LengthRuns([DumpFrame(true, ty)], NEW_HASH, form, |pairs|, body, out);
      HashRuns([DumpFrame(true, ty)], |pairs|, Bytes([]), [], pairs, rest, out);
      assert [] + DecodedPairs(pairs) == DecodedPairs(pairs);
      HandedOut(ty, RetObject(ObjectFor(d)), ObjectFor(d), rest, out);
    case DumpZipList(s, header, es) =>
      ZiplistObject(s, header, es);
      ZiplistIsStr(s, header, es);
      StringDumpRuns(10, s, ObjectFor(d), rest, out);
    case DumpZipHash(ty, s, header, es) =>
      ZiplistObject(s, header, es);
      ZiplistIsStr(s, header, es);
      StringDumpRuns(ty, s, ObjectFor(d), rest, out);
  }

  lemma ZiplistIsStr(s: Str, header: seq<int>, es: seq<Z.Entry>)
    requires HoldsZiplist(s, header, es)
    ensures StrOk(s)
  {
  }

  lemma StringDumpRuns(ty: int, s: Str, o: Object, rest: seq<int>, out: seq<Object>)
    requires ty in {0, 10, 12, 13} && StrOk(s)
             && (if ty == 0 then o == StrObject(Decoded(s)) else ObjectOf(ty, Decoded(s)) == Some(o))
    ensures Run(Idle([ty] + StrCode(s) + rest, out)) == Run(Idle(rest, out + [o]))
  {
    hide Run, Idle, StrCode, Decoded, StrOk;
    assert [ty] + StrCode(s) + rest == [ty] + (StrCode(s) + rest);
    TypeRuns(ty, StrCode(s) + rest, out);
    StrRuns([DumpFrame(true, ty)], s, rest, out);
    HandedOut(ty, RetValue(Decoded(s)), o, rest, out);
  }

  // ---------------------------------------------------------------- malformed payloads

  /** Types without a decoder are errors; zipmaps and integer sets are not modelled. */
  lemma TypesChecked(ty: int, rest: seq<int>, out: seq<Object>)
    requires ty !in {0, 1, 2, 3, 4, 10, 12, 13}
    ensures var r := Run(Idle([ty] + rest, out));
            r.why == (if ty == 9 || ty == 11 then Outside else BadType) && r.c.out == out
  {
    hide Run;
    var f, g := DumpFrame(false, 0), DumpFrame(true, ty);
    assert [] + [f] == [f] && [] + [g] == [g] && ([ty] + rest)[1..] == rest;
    TopOf([], f, [ty] + rest, out);
    TopOf([], g, rest, out);
    RunUnfolds(Idle([ty] + rest, out));
    RunUnfolds(Working([], g, rest, out));
  }

  /** So are encodings of a string other than the three integers and compression. */
  lemma EncodingChecked(below: seq<Frame>, enc: int, rest: seq<int>, out: seq<Object>)
    requires 4 <= enc < 64
    ensures var r := Run(Working(below, NEW_STR, [192 + enc] + rest, out)); r.why == BadEncoding && r.c.out == out
  {
    hide Run;
    var input := [192 + enc] + rest;
    assert input[1..] == rest;
    TopOf(below, NEW_STR, input, out);
    TopOf(below, StrFrame(StrEnc, enc, []), rest, out);
    RunUnfolds(Working(below, NEW_STR, input, out));
    RunUnfolds(Working(below, StrFrame(StrEnc, enc, []), rest, out));
  }

  /** Compressed bytes, whatever they are: an error if they do not decompress into the length given;
      else their text, and behind it bytes nobody wrote if it is shorter. */
  lemma CompressedChecked(below: seq<Frame>, code: seq<int>, rawLen: nat, rest: seq<int>, out: seq<Object>)
    requires code != []
    ensures var r := Run(Working(below, LzfFrame(LzfData, |code|, rawLen, []), code + rest, out));
            match Lzf.Decode(code, 0, [], rawLen)
            case Done(text) =>
              && |text| <= rawLen
              && r == Run(Done(below, Bytes(text + seq(rawLen - |text|, _ => -1)), rest, out))
            case _ => r.why == BadLzf && r.c.out == out
  {
    hide Run;
    var f, input := LzfFrame(LzfData, |code|, rawLen, []), code + rest;
    TopOf(below, f, input, out);
    RunUnfolds(Working(below, f, input, out));
    DataIsSeen(Working(below, f, input, out));
    assert [] + input == input && input[..|code|] == code && input[|code|..] == rest;
    Lzf.DecodeFits(code, 0, [], rawLen);
  }

  /** A ziplist hash that lacks its last value is read beyond its end by the source. */
  lemma OddHashLeaves(ty: int, s: Str, header: seq<int>, es: seq<Z.Entry>, rest: seq<int>, out: seq<Object>)
    requires (ty == 12 || ty == 13) && HoldsZiplist(s, header, es) && |es| % 2 == 1
    ensures StrOk(s)
    ensures var r := Run(Idle([ty] + StrCode(s) + rest, out)); r.why == Outside && r.c.out == out
  {
    hide Run, Idle, StrCode;
    assert [ty] + StrCode(s) + rest == [ty] + (StrCode(s) + rest);
    TypeRuns(ty, StrCode(s) + rest, out);
    StrRuns([DumpFrame(true, ty)], s, rest, out);
    ZiplistOdd(s, header, es, ty);
    hide ObjectOf, Decoded;
    RunUnfolds(Config([DumpFrame(true, ty)], rest, RetValue(Decoded(s)), out));
  }

  lemma ZiplistOdd(s: Str, header: seq<int>, es: seq<Z.Entry>, ty: int)
    requires (ty == 12 || ty == 13) && HoldsZiplist(s, header, es) && |es| % 2 == 1
    ensures ObjectOf(ty, Decoded(s)) == None
  {
    hide Z.WalkFrom, Z.Ziplist, Pairs;
    Z.ZiplistBack(header, es, []);
    assert Z.Ziplist(header, es) + [] == Z.Ziplist(header, es);
  }

  // ---------------------------------------------------------------- empty lists and hashes

  function NewBuilder(ty: int): Frame { if ty <= 2 then NEW_LIST else NEW_HASH }

  lemma EmptyHangs(ty: int, form: LenForm, rest: seq<int>, out: seq<Object>)
    requires 1 <= ty <= 4 && LenFits(form, 0)
    ensures var r := Run(Idle([ty] + (LenCode(form, 0) + rest), out)); r.why == Forever && r.c.out == out
  {
    hide Run, LenCode;
    var below, f := [DumpFrame(true, ty)], Sized(NewBuilder(ty), false, 0);
    TypeRuns(ty, LenCode(form, 0) + rest, out);
    LengthRuns(below, NewBuilder(ty), form, 0, rest, out);
    TopOf(below, f, rest, out);
    RunUnfolds(Working(below, f, rest, out));
    TopOf(below, Idles(f), rest, out);
    RunUnfolds(Working(below, Idles(f), rest, out));
  }

  /** A list or hash that still expects something. */
  predicate Expects(f: Frame) {
    match f
    case DumpFrame(_, _) => false
    case ListFrame(sized, len, vals) => sized && |vals| < len
    case HashFrame(state, len, _, kvs) => state != HashLen && |kvs| < len
    case _ => true
  }

  /** The decoder is inside a value that expects something, or has handed out more than n objects. */
  predicate Busy(c: Config, n: int) {
    || |c.out| > n
    || (|c.out| == n && c.stack != [] && c.stack[0].DumpFrame? && c.stack[0].typed
        && (forall i | 1 <= i < |c.stack| :: Expects(c.stack[i])) && (|c.stack| == 1 ==> c.ret != Nothing))
  }

  lemma PushIsBusy(c: Config, f: Frame, n: int)
    requires Busy(c, n) && |c.stack| > 1 && Expects(f)
    ensures Busy(Push(c, f), n)
  {
  }

  lemma SetIsBusy(c: Config, f: Frame, n: int)
    requires Busy(c, n) && |c.stack| > 1 && Expects(f)
    ensures Busy(SetTop(c.(ret := Nothing), f), n)
  {
  }

  lemma PopIsBusy(c: Config, n: int)
    requires Busy(c, n) && |c.stack| > 1
    ensures forall input, ret | ret != Nothing :: Busy(c.(stack := Below(c), input := input, ret := ret), n)
  {
  }

  lemma BusyTop(c: Config, n: int)
    requires Busy(c, n) && |c.out| <= n
    ensures c.stack != [] && (if |c.stack| == 1 then Top(c).DumpFrame? && c.ret != Nothing else Expects(Top(c)))
  {
  }

  lemma DeliverStaysBusy(c: Config, n: int)
    requires Busy(c, n) && |c.out| <= n && c.ret != Nothing
    ensures Deliver(c).Go? ==> Busy(Deliver(c).c, n)
    ensures Deliver(c).Halt? ==> Deliver(c).why != Forever
  {
    hide Busy, ObjectOf;
    BusyTop(c, n);
    if |c.stack| > 1 {
      PopIsBusy(c, n);
      match Top(c)
      case ListFrame(_, len, vals) =>
        if c.ret.RetValue? && |vals| + 1 < len { SetIsBusy(c, ListFrame(true, len, vals + [c.ret.v]), n); }
      case HashFrame(state, len, key, kvs) =>
        if c.ret.RetValue? {
          if state != HashVal {
            SetIsBusy(c, HashFrame(HashVal, len, c.ret.v, kvs), n);
          } else if |kvs| + 1 < len {
            SetIsBusy(c, HashFrame(HashKey, len, key, kvs + [(key, c.ret.v)]), n);
          }
        }
      case _ =>
    } else {
      MoreOut(c, n);
    }
  }

  lemma MoreOut(c: Config, n: int)
    requires Busy(c, n) && |c.out| <= n && |c.stack| == 1 && c.ret != Nothing
    ensures Deliver(c).Go? ==> Busy(Deliver(c).c, n)
  {
  }

  lemma StringStaysBusy(c: Config, n: int)
    requires Busy(c, n) && |c.out| <= n && c.ret == Nothing && |c.stack| > 1 && (Top(c).StrFrame? || Top(c).LzfFrame?)
    ensures Length(c).Go? ==> Busy(Length(c).c, n)
    ensures Top(c).StrFrame? ==> Encoded(c).Go? ==> Busy(Encoded(c).c, n)
    ensures Data(c).Go? ==> Busy(Data(c).c, n)
  {
    hide StoreLen, IntOf, Filled;
  }

  lemma NeverHangs(c: Config)
    requires c.stack != [] && (Top(c).StrFrame? || Top(c).LzfFrame?)
    ensures Length(c).Halt? ==> Length(c).why != Forever
    ensures Top(c).StrFrame? ==> Encoded(c).Halt? ==> Encoded(c).why != Forever
    ensures Data(c).Halt? ==> Data(c).why != Forever
  {
    hide StoreLen, IntOf, Filled;
  }

  lemma StepStaysBusy(c: Config, n: int)
    requires Busy(c, n) && |c.out| <= n
    ensures Step(c).Go? ==> Busy(Step(c).c, n)
    ensures Step(c).Halt? ==> Step(c).why != Forever
  {
    hide Busy, Deliver, StoreLen, IntOf, Filled;
    BusyTop(c, n);
    if c.ret != Nothing {
      DeliverStaysBusy(c, n);
    } else {
      hide Length, Encoded, Data;
      match Top(c)
      case ListFrame(_, _, _) => PushIsBusy(c, NEW_STR, n);
      case HashFrame(_, _, _, _) => PushIsBusy(c, NEW_STR, n);
      case _ =>
        StringStaysBusy(c, n);
        NeverHangs(c);
    }
  }

  lemma StepGrows(c: Config)
    ensures |c.out| <= |Step(c).c.out|
  {
    hide StoreLen, IntOf, Filled, ObjectOf;
  }

  lemma {:induction false} OutGrows(c: Config)
    ensures |c.out| <= |Run(c).c.out|
    decreases |c.input|, Rank(c)
  {
    hide Run, Step, Rank;
    StepDecreases(c);
    StepGrows(c);
    RunUnfolds(c);
    if Step(c).Go? { OutGrows(Step(c).c); }
  }

  lemma {:induction false} BusyNeverHangs(c: Config, n: int)
    requires Busy(c, n)
    ensures Run(c).why == Forever ==> |Run(c).c.out| > n
    decreases |c.input|, Rank(c)
  {
    hide Run, Step, Rank, Busy;
    if |c.out| > n {
      OutGrows(c);
    } else {
      StepDecreases(c);
      StepStaysBusy(c, n);
      RunUnfolds(c);
      if Step(c).Go? { BusyNeverHangs(Step(c).c, n); }
    }
  }

  /** Whatever bytes follow the length of a list, set, sorted set or hash: the decoder turns forever
      without handing anything out exactly if the length is 0. */
  lemma HangsExactlyIfEmpty(ty: int, form: LenForm, n: int, rest: seq<int>, out: seq<Object>)
    requires 1 <= ty <= 4 && LenFits(form, n)
    ensures var r := Run(Idle([ty] + (LenCode(form, n) + rest), out));
            r.why == Forever && r.c.out == out <==> n == 0
  {
    hide Run, LenCode, Busy;
    if n == 0 {
      EmptyHangs(ty, form, rest, out);
    } else {
      var below, f := [DumpFrame(true, ty)], Sized(NewBuilder(ty), false, n);
      TypeRuns(ty, LenCode(form, n) + rest, out);
      LengthRuns(below, NewBuilder(ty), form, n, rest, out);
      FullIsBusy(ty, f, rest, out);
      BusyNeverHangs(Working(below, f, rest, out), |out|);
    }
  }

  lemma FullIsBusy(ty: int, f: Frame, rest: seq<int>, out: seq<Object>)
    requires Expects(f)
    ensures Busy(Working([DumpFrame(true, ty)], f, rest, out), |out|)
  {
  }

  lemma EmptyDump(d: Dump, rest: seq<int>, out: seq<Object>)
    requires DumpOk(d) && Empty(d)
    ensures var r := Run(Idle(Payload(d) + rest, out)); r.why == Forever && r.c.out == out
  {
    hide Run, LenCode, Idle;
    assert Payload(d) + rest == [d.ty] + (LenCode(d.form, 0) + rest);
    EmptyHangs(d.ty, d.form, rest, out);
  }

  /** A payload at the start of the input is handed out as one object, and exactly its bytes are
      used up, if and only if it is not an empty list or hash. */
  lemma DumpRuns(d: Dump, rest: seq<int>, out: seq<Object>)
    requires DumpOk(d)
    ensures Run(Idle(Payload(d) + rest, out)) == Run(Idle(rest, out + [ObjectFor(d)])) <==> !Empty(d)
  {
    hide Run, Payload, ObjectFor;
    if Empty(d) {
      EmptyDump(d, rest, out);
      OutGrows(Idle(rest, out + [ObjectFor(d)]));
    } else {
      FullDumpRuns(d, rest, out);
    }
  }

  lemma Rests(out: seq<Object>)
    ensures Run(Idle([], out)) == Halt(Idle([], out), Premature)
  {
    hide Run;
    RunUnfolds(Idle([], out));
  }

  /** A new decoder given a whole payload calls its callback once, with the object, exactly if it is
      not an empty list or hash. */
  lemma DumpParses(d: Dump)
    requires DumpOk(d)
    ensures Run(Config([], Payload(d), Nothing, [])) == Halt(Idle([], [ObjectFor(d)]), Premature) <==> !Empty(d)
  {
    hide Run, Payload, ObjectFor, Idle, Empty;
    StartIsIdle(Payload(d), []);
    WholeDump(d);
  }

  lemma WholeDump(d: Dump)
    requires DumpOk(d)
    ensures Run(Idle(Payload(d), [])) == Halt(Idle([], [ObjectFor(d)]), Premature) <==> !Empty(d)
    ensures Run(Idle(Payload(d), [])).why == (if Empty(d) then Forever else Premature)
  {
    hide Run, Payload, ObjectFor, Idle, Empty;
    assert Payload(d) + [] == Payload(d) && [] + [ObjectFor(d)] == [ObjectFor(d)];
    Rests([ObjectFor(d)]);
    if Empty(d) { EmptyDump(d, [], []); } else { FullDumpRuns(d, [], []); }
  }

  /** A payload that arrives in any pieces gives one call of the callback, with its object, and
      leaves nothing over, exactly if it is not an empty list or hash. */
  lemma DumpInPieces(d: Dump, chunks: seq<seq<int>>)
    requires DumpOk(d) && Concat(chunks) == Payload(d)
    ensures Feed(Idle([], []), chunks) == Halt(Idle([], [ObjectFor(d)]), Premature) <==> !Empty(d)
  {
    hide Run, Feed, Payload, ObjectFor, Empty;
    Rests([]);
    ChunksDoNotMatter(Idle([], []), chunks);
    assert More(Idle([], []), Concat(chunks)) == Idle(Payload(d), []) by { assert [] + Concat(chunks) == Payload(d); }
    WholeDump(d);
  }
}
