/** The ziplist walker of src/base/rdb_parser/ziplist.c: compact lists of strings and integers, read
    back from their bytes.  A walk that would leave the given bytes is None: the source does not
    check for it. */
module Ziplist {
  import opened Wrappers

  const ZIP_END: int := 255
  const ZIP_BIG_PREVLEN: int := 254
  const HEADER_SIZE: int := 10

  /** Integers are kept as integers; the source prints them in decimal. */
  datatype Item = Str(bytes: seq<int>) | Num(v: int)

  // ---------------------------------------------------------------- little endian

  function Le(s: seq<int>): int { if s == [] then 0 else s[0] + 256 * Le(s[1..]) }

  function Pow256(n: nat): int { if n == 0 then 1 else 256 * Pow256(n - 1) }

  /** The low n bytes of v, lowest first. */
  function LeBytes(v: int, n: nat): (s: seq<int>)
    ensures |s| == n
    decreases n
  {
    if n == 0 then [] else [v % 256] + LeBytes(v / 256, n - 1)
  }

  /** An unsigned number below m read as a signed one. */
  function ToSigned(x: int, m: int): int { if x >= m / 2 then x - m else x }

  /** What is above the low n bytes of v. */
  function High(v: int, n: nat): int
    decreases n
  {
    if n == 0 then v else High(v / 256, n - 1)
  }

  lemma {:induction false} LeParts(v: int, n: nat)
    ensures var l := Le(LeBytes(v, n)); 0 <= l < Pow256(n) && v == l + Pow256(n) * High(v, n)
    decreases n
  {
    if n > 0 {
      var w := v / 256;
      LeParts(w, n - 1);
      LeStep(v, n);
      Assoc(Pow256(n - 1), High(w, n - 1));
      hide Le, LeBytes, Pow256, High;
    }
  }

  lemma LeStep(v: int, n: nat)
    requires n > 0
    ensures Le(LeBytes(v, n)) == v % 256 + 256 * Le(LeBytes(v / 256, n - 1))
    ensures Pow256(n) == 256 * Pow256(n - 1) && High(v, n) == High(v / 256, n - 1)
  {
    assert LeBytes(v, n)[1..] == LeBytes(v / 256, n - 1);
  }

  lemma Assoc(p: int, h: int)
    ensures (256 * p) * h == 256 * (p * h)
  {
  }

  lemma {:induction false} MulAtLeast(m: int, h: nat)
    requires m > 0 && h > 0
    ensures m * h >= m
  {
    if h > 1 {
      MulAtLeast(m, h - 1);
      assert m * h == m * (h - 1) + m;
    }
  }

  lemma MulSign(m: int, h: int)
    requires m > 0
    ensures h >= 1 ==> m * h >= m
    ensures h <= -2 ==> m * h <= -m - m
    ensures h == -1 ==> m * h == -m
  {
    if h >= 1 {
      MulAtLeast(m, h);
    } else if h <= -2 {
      MulAtLeast(m, -h - 1);
      assert m * (-h - 1) == -(m * h) - m;
    }
  }

  /** Low bytes of a number in range give it back when read as signed. */
  lemma SignedBack(v: int, n: nat)
    requires var m := Pow256(n); m % 2 == 0 && -(m / 2) <= v < m / 2
    ensures ToSigned(Le(LeBytes(v, n)), Pow256(n)) == v && 0 <= Le(LeBytes(v, n)) < Pow256(n)
  {
    LeParts(v, n);
    MulSign(Pow256(n), High(v, n));
    hide Le, LeBytes, Pow256, High;
  }

  // ---------------------------------------------------------------- decoding

  function PrevSize(b: int): int { if b < ZIP_BIG_PREVLEN then 1 else 5 }

  /** ZIP_ENTRY_ENCODING. */
  function Encoding(b: int): int { if b < 0xc0 then b / 64 * 64 else b }

  /** zipIntSize; an invalid encoding counts as 0. */
  function IntSize(encoding: int): int {
    if encoding == 0xfe then 1
    else if encoding == 0xc0 then 2
    else if encoding == 0xf0 then 3
    else if encoding == 0xd0 then 4
    else if encoding == 0xe0 then 8
    else 0
  }

  /** ZIP_DECODE_LENGTH at q: bytes of the header and of the data. */
  function LengthAt(zl: seq<int>, q: int): Option<(int, int)> {
    if !(0 <= q < |zl|) then None
    else
      var b := zl[q];
      var e := Encoding(b);
      if e == 0 then Some((1, b % 64))
      else if e == 64 then if q + 1 < |zl| then Some((2, b % 64 * 256 + zl[q + 1])) else None
      else if e == 128 then
        if q + 4 < |zl| then
          Some((5, zl[q + 1] * 0x100_0000 + zl[q + 2] * 0x1_0000 + zl[q + 3] * 256 + zl[q + 4]))
        else None
      else Some((1, IntSize(e)))
  }

  /** zipLoadInteger; None stands for its assert. */
  function IntOf(data: seq<int>, encoding: int): Option<int> {
    if |data| != IntSize(encoding) then None
    else if encoding == 0xfe then Some(ToSigned(Le(data), Pow256(1)))
    else if encoding == 0xc0 then Some(ToSigned(Le(data), Pow256(2)))
    else if encoding == 0xd0 then Some(ToSigned(Le(data), Pow256(4)))
    else if encoding == 0xf0 then Some(ToSigned(256 * Le(data), Pow256(4)) / 256)
    else if encoding == 0xe0 then Some(ToSigned(Le(data), Pow256(8)))
    else if 0xf1 <= encoding <= 0xfd then Some(encoding % 16 - 1)
    else None
  }

  /** ziplistGet at p: the item and the bytes of the entry. */
  function GetAt(zl: seq<int>, p: int): Option<(Item, int)> {
    if !(0 <= p < |zl|) then None
    else
      var q := p + PrevSize(zl[p]);
      var l := LengthAt(zl, q);
      if l.None? then None
      else
        var (lensize, len) := l.value;
        var from := q + lensize;
        if len < 0 || from + len > |zl| then None
        else
          var data, n := zl[from..from + len], from + len - p;
          var e := Encoding(zl[q]);
          if e < 0xc0 then Some((Str(data), n))
          else
            var v := IntOf(data, e);
            if v.None? then None else Some((Num(v.value), n))
  }

  lemma GetIsLong(zl: seq<int>, p: int)
    ensures GetAt(zl, p).Some? ==> GetAt(zl, p).value.1 > 0 && 0 <= p && p + GetAt(zl, p).value.1 <= |zl|
  {
  }

  /** All items from p to the end mark. */
  function WalkFrom(zl: seq<int>, p: int): Option<seq<Item>>
    decreases |zl| - p
  {
    if !(0 <= p < |zl|) then None
    else if zl[p] == ZIP_END then Some([])
    else
      var g := GetAt(zl, p);
      if g.None? then None
      else
        GetIsLong(zl, p);
        var rest := WalkFrom(zl, p + g.value.1);
        if rest.None? then None else Some([g.value.0] + rest.value)
  }

  // ---------------------------------------------------------------- encoding

  datatype Form = Str6 | Str14 | Str32 | Int8 | Int16 | Int24 | Int32 | Int64 | Imm4

  /** An entry with the forms chosen for its length field and its item. */
  datatype Entry = Entry(prevLen: int, bigPrev: bool, form: Form, item: Item)

  function Width(f: Form): nat {
    match f case Int8 => 1 case Int16 => 2 case Int24 => 3 case Int32 => 4 case Int64 => 8 case _ => 0
  }

  predicate FormFits(f: Form, item: Item) {
    match f
    case Str6 => item.Str? && |item.bytes| < 64
    case Str14 => item.Str? && |item.bytes| < 0x4000
    case Str32 => item.Str? && |item.bytes| < 0x1_0000_0000
    case Imm4 => item.Num? && 0 <= item.v <= 12
    case _ => item.Num? && -(Pow256(Width(f)) / 2) <= item.v < Pow256(Width(f)) / 2
  }

  predicate EntryOk(e: Entry) {
    && FormFits(e.form, e.item)
    && if e.bigPrev then 0 <= e.prevLen < 0x1_0000_0000 else 0 <= e.prevLen < 254
  }

  function PrevCode(e: Entry): seq<int> {
    if e.bigPrev then [254] + LeBytes(e.prevLen, 4) else [e.prevLen]
  }

  function ItemCode(f: Form, item: Item): seq<int>
    requires FormFits(f, item)
  {
    match f
    case Str6 => [|item.bytes|] + item.bytes
    case Str14 => [64 + |item.bytes| / 256, |item.bytes| % 256] + item.bytes
    case Str32 =>
      var n := |item.bytes|;
      [128, n / 0x100_0000, n / 0x1_0000 % 256, n / 256 % 256, n % 256] + item.bytes
    case Int8 => [0xfe] + LeBytes(item.v, 1)
    case Int16 => [0xc0] + LeBytes(item.v, 2)
    case Int24 => [0xf0] + LeBytes(item.v, 3)
    case Int32 => [0xd0] + LeBytes(item.v, 4)
    case Int64 => [0xe0] + LeBytes(item.v, 8)
    case Imm4 => [0xf1 + item.v]
  }

  function Code(e: Entry): seq<int>
    requires EntryOk(e)
  {
    PrevCode(e) + ItemCode(e.form, e.item)
  }

  predicate AllOk(es: seq<Entry>) { es == [] || (EntryOk(es[0]) && AllOk(es[1..])) }

  function CodeAll(es: seq<Entry>): seq<int>
    requires AllOk(es)
  {
    if es == [] then [] else Code(es[0]) + CodeAll(es[1..])
  }

  function Items(es: seq<Entry>): (r: seq<Item>)
    ensures |r| == |es|
  {
    if es == [] then [] else [es[0].item] + Items(es[1..])
  }

  lemma {:induction false} ItemAtIndex(es: seq<Entry>, i: int)
    requires 0 <= i < |es|
    ensures Items(es)[i] == es[i].item
  {
    if i > 0 { ItemAtIndex(es[1..], i - 1); }
  }

  /** A whole ziplist: ten bytes of header, the entries, the end mark. */
  function Ziplist(header: seq<int>, es: seq<Entry>): seq<int>
    requires AllOk(es)
  {
    header + CodeAll(es) + [255]
  }

  // ---------------------------------------------------------------- round trip

  /** The header and the data of an item at q. */
  predicate ItemAt(zl: seq<int>, q: int, lensize: int, len: int, item: Item) {
    && 0 <= q < |zl| && LengthAt(zl, q) == Some((lensize, len)) && lensize > 0 && len >= 0 && q + lensize + len <= |zl|
    && var data, e := zl[q + lensize..q + lensize + len], Encoding(zl[q]);
       if e < 0xc0 then item == Str(data) else IntOf(data, e).Some? && item == Num(IntOf(data, e).value)
  }

  lemma StringHead(f: Form, item: Item)
    requires FormFits(f, item) && item.Str?
    ensures var c, n := ItemCode(f, item), |item.bytes|;
            && |c| > n && c[|c| - n..] == item.bytes && 0 <= c[0] && Encoding(c[0]) < 0xc0
            && LengthAt(c, 0) == Some((|c| - n, n))
  {
    match f
    case Str6 =>
    case Str14 => ShortHead(|item.bytes|);
    case Str32 => LongHead(|item.bytes|);
    case _ =>
  }

  lemma ShortHead(n: int)
    requires 0 <= n < 0x4000
    ensures var b := 64 + n / 256; 64 <= b < 128 && Encoding(b) == 64 && b % 64 * 256 + n % 256 == n
  {
  }

  lemma LongHead(n: int)
    requires 0 <= n < 0x1_0000_0000
    ensures n / 0x100_0000 * 0x100_0000 + n / 0x1_0000 % 256 * 0x1_0000 + n / 256 % 256 * 256 + n % 256 == n
  {
    var a, b, c := n / 256, n / 0x1_0000, n / 0x100_0000;
    DivDiv(n, 0x100);
    DivDiv(n, 0x1_0000);
    assert a == 256 * b + a % 256 && b == 256 * c + b % 256;
  }

  lemma DivDiv(n: int, m: int)
    requires n >= 0 && (m == 0x100 || m == 0x1_0000)
    ensures n / (m * 256) == n / m / 256
  {
  }

  lemma LengthMoves(c: seq<int>, pre: seq<int>, rest: seq<int>)
    requires LengthAt(c, 0).Some?
    ensures LengthAt(pre + c + rest, |pre|) == LengthAt(c, 0)
  {
    var zl := pre + c + rest;
    assert forall k | 0 <= k < |c| :: zl[|pre| + k] == c[k];
    hide Encoding, IntSize;
    assert zl[|pre|] == c[0];
    assert |c| > 1 ==> zl[|pre| + 1] == c[1];
    assert |c| > 4 ==> zl[|pre| + 2] == c[2] && zl[|pre| + 3] == c[3] && zl[|pre| + 4] == c[4];
  }

  lemma StringBack(f: Form, item: Item, pre: seq<int>, rest: seq<int>)
    requires FormFits(f, item) && item.Str?
    ensures var c := ItemCode(f, item); ItemAt(pre + c + rest, |pre|, |c| - |item.bytes|, |item.bytes|, item)
  {
    var c := ItemCode(f, item);
    StringHead(f, item);
    LengthMoves(c, pre, rest);
    hide ItemCode, LengthAt, Encoding;
    var zl, q, s := pre + c + rest, |pre|, item.bytes;
    var h := |c| - |s|;
    assert zl[q] == c[0];
    assert zl[q + h..q + h + |s|] == c[h..];
  }

  /** Sign extension of a 24-bit number by shifting it up and down again. */
  lemma Shift24(x: int)
    requires 0 <= x < Pow256(3)
    ensures ToSigned(256 * x, Pow256(4)) / 256 == ToSigned(x, Pow256(3))
  {
    Powers();
  }

  lemma Powers()
    ensures Pow256(1) == 0x100 && Pow256(2) == 0x1_0000 && Pow256(3) == 0x100_0000 && Pow256(4) == 0x1_0000_0000
    ensures Pow256(8) == 0x1_0000_0000_0000_0000
  {
    assert Pow256(1) == 256 * Pow256(0);
    assert Pow256(2) == 256 * Pow256(1);
    assert Pow256(3) == 256 * Pow256(2);
    assert Pow256(4) == 256 * Pow256(3);
    assert Pow256(5) == 256 * Pow256(4);
    assert Pow256(6) == 256 * Pow256(5);
    assert Pow256(7) == 256 * Pow256(6);
  }

  /** Every integer form is read back as the integer it was written for. */
  lemma IntBack(f: Form, v: int)
    requires FormFits(f, Num(v))
    ensures var c := ItemCode(f, Num(v)); 0xc0 <= c[0] < 255 && IntOf(c[1..], c[0]) == Some(v)
  {
    Powers();
    if f != Imm4 {
      var n := Width(f);
      SignedBack(v, n);
      assert ItemCode(f, Num(v))[1..] == LeBytes(v, n);
      if f == Int24 { Shift24(Le(LeBytes(v, n))); }
    }
  }

  /** Bytes of the header of an item. */
  function HeadSize(f: Form): int { match f case Str14 => 2 case Str32 => 5 case _ => 1 }

  lemma ItemBack(f: Form, item: Item, pre: seq<int>, rest: seq<int>)
    requires FormFits(f, item)
    ensures var c, h := ItemCode(f, item), HeadSize(f); h <= |c| && ItemAt(pre + c + rest, |pre|, h, |c| - h, item)
  {
    var c := ItemCode(f, item);
    if item.Str? {
      StringBack(f, item, pre, rest);
    } else {
      IntBack(f, item.v);
      var zl := pre + c + rest;
      assert zl[|pre|] == c[0] && zl[|pre| + 1..|pre| + |c|] == c[1..];
      assert ItemAt(zl, |pre|, 1, |c| - 1, item);
    }
  }

  lemma GetOfItem(zl: seq<int>, p: int, h: int, len: int, item: Item)
    requires 0 <= p < |zl| && ItemAt(zl, p + PrevSize(zl[p]), h, len, item)
    ensures GetAt(zl, p) == Some((item, PrevSize(zl[p]) + h + len))
  {
    hide LengthAt, IntOf, Encoding;
  }

  lemma GetBack(e: Entry, pre: seq<int>, rest: seq<int>)
    requires EntryOk(e)
    ensures var c := Code(e); c != [] && c[0] != ZIP_END && GetAt(pre + c + rest, |pre|) == Some((e.item, |c|))
  {
    hide ItemCode, ItemAt, GetAt;
    var c, pc := Code(e), PrevCode(e);
    var zl := pre + c + rest;
    assert zl == (pre + pc) + ItemCode(e.form, e.item) + rest;
    assert zl[|pre|] == pc[0] && PrevSize(pc[0]) == |pc|;
    ItemBack(e.form, e.item, pre + pc, rest);
    GetOfItem(zl, |pre|, HeadSize(e.form), |c| - |pc| - HeadSize(e.form), e.item);
  }

  lemma {:induction false} WalkBack(es: seq<Entry>, pre: seq<int>, rest: seq<int>)
    requires AllOk(es)
    ensures WalkFrom(pre + CodeAll(es) + [ZIP_END] + rest, |pre|) == Some(Items(es))
    decreases |es|
  {
    hide GetAt, Code, EntryOk;
    var zl := pre + CodeAll(es) + [ZIP_END] + rest;
    if es == [] {
      assert zl[|pre|] == ZIP_END;
    } else {
      var c, tail := Code(es[0]), CodeAll(es[1..]) + [ZIP_END] + rest;
      GetBack(es[0], pre, tail);
      assert zl == pre + c + tail;
      assert zl[|pre|] == c[0];
      WalkBack(es[1..], pre + c, rest);
      assert zl == pre + c + CodeAll(es[1..]) + [ZIP_END] + rest;
    }
  }

  /** Any list of strings and integers, in any forms that fit them, is read back in order. */
  lemma ZiplistBack(header: seq<int>, es: seq<Entry>, rest: seq<int>)
    requires |header| == 10 && AllOk(es)
    ensures WalkFrom(Ziplist(header, es) + rest, 10) == Some(Items(es))
  {
    WalkBack(es, header, rest);
  }

  // ---------------------------------------------------------------- the loops

  /** ziplistGet. */
  method ZiplistGet(zl: seq<int>, p: int) returns (item: Item, n: int)
    requires GetAt(zl, p).Some?
    ensures (item, n) == GetAt(zl, p).value
  {
    var prevSize := if zl[p] < ZIP_BIG_PREVLEN then 1 else 5;
    var q := p + prevSize;
    var encoding := Encoding(zl[q]);
    var lensize, len := LengthAt(zl, q).value.0, LengthAt(zl, q).value.1;
    var headerSize := prevSize + lensize;
    var s := zl[p + headerSize..p + headerSize + len];
    if encoding < 0xc0 {
      item := Str(s);
    } else {
      item := Num(IntOf(s, encoding).value);
    }
    n := headerSize + len;
  }

  lemma WalkOn(zl: seq<int>, p: int)
    requires WalkFrom(zl, p).Some? && 0 <= p < |zl| && zl[p] != ZIP_END
    ensures GetAt(zl, p).Some? && GetAt(zl, p).value.1 > 0
    ensures var (item, n) := GetAt(zl, p).value;
            p + n < |zl| && WalkFrom(zl, p + n).Some? && WalkFrom(zl, p).value == [item] + WalkFrom(zl, p + n).value
  {
    hide GetAt;
    GetIsLong(zl, p);
  }

  /** load_ziplist_list_or_set. */
  method LoadList(zl: seq<int>) returns (items: seq<Item>, size: int)
    requires WalkFrom(zl, HEADER_SIZE).Some?
    ensures Some(items) == WalkFrom(zl, HEADER_SIZE) && size == |items|
  {
    hide WalkFrom, GetAt;
    WalkInside(zl, HEADER_SIZE);
    items, size := [], 0;
    var p := HEADER_SIZE;
    while zl[p] != ZIP_END
      invariant HEADER_SIZE <= p < |zl| && WalkFrom(zl, p).Some? && size == |items|
      invariant WalkFrom(zl, HEADER_SIZE).value == items + WalkFrom(zl, p).value
      decreases |zl| - p
    {
      WalkOn(zl, p);
      var item, n := ZiplistGet(zl, p);
      p := p + n;
      items, size := items + [item], size + 1;
    }
    WalkEnds(zl, p);
    assert items + [] == items;
  }

  lemma WalkInside(zl: seq<int>, p: int)
    requires WalkFrom(zl, p).Some?
    ensures 0 <= p < |zl|
  {
  }

  lemma WalkEnds(zl: seq<int>, p: int)
    requires 0 <= p < |zl| && zl[p] == ZIP_END
    ensures WalkFrom(zl, p) == Some([])
  {
  }

  function Flatten(kvs: seq<(Item, Item)>): (items: seq<Item>)
    ensures |items| == 2 * |kvs|
  {
    if kvs == [] then [] else Flatten(kvs[..|kvs| - 1]) + [kvs[|kvs| - 1].0, kvs[|kvs| - 1].1]
  }

  lemma {:induction false} FlatAt(kvs: seq<(Item, Item)>, i: int)
    requires 0 <= i < |kvs|
    ensures Flatten(kvs)[2 * i] == kvs[i].0 && Flatten(kvs)[2 * i + 1] == kvs[i].1
  {
    if i < |kvs| - 1 { FlatAt(kvs[..|kvs| - 1], i); }
  }

  /** load_ziplist_hash_or_zset: the source reads on behind the end mark if a value is missing. */
  method LoadHash(zl: seq<int>) returns (kvs: seq<(Item, Item)>, size: int)
    requires WalkFrom(zl, HEADER_SIZE).Some? && |WalkFrom(zl, HEADER_SIZE).value| % 2 == 0
    ensures Some(Flatten(kvs)) == WalkFrom(zl, HEADER_SIZE) && size == |kvs|
    ensures forall i | 0 <= i < |kvs| :: kvs[i] == (Flatten(kvs)[2 * i], Flatten(kvs)[2 * i + 1])
  {
    hide WalkFrom, GetAt;
    WalkInside(zl, HEADER_SIZE);
    kvs, size := [], 0;
    var p := HEADER_SIZE;
    while zl[p] != ZIP_END
      invariant HEADER_SIZE <= p < |zl| && WalkFrom(zl, p).Some? && size == |kvs|
      invariant WalkFrom(zl, HEADER_SIZE).value == Flatten(kvs) + WalkFrom(zl, p).value
      decreases |zl| - p
    {
      WalkOn(zl, p);
      var key, n := ZiplistGet(zl, p);
      p := p + n;
      if zl[p] == ZIP_END { WalkEnds(zl, p); }
      WalkOn(zl, p);
      var val;
      val, n := ZiplistGet(zl, p);
      p := p + n;
      assert (kvs + [(key, val)])[..|kvs|] == kvs;
      kvs, size := kvs + [(key, val)], size + 1;
    }
    WalkEnds(zl, p);
    assert Flatten(kvs) + [] == Flatten(kvs);
    forall i | 0 <= i < |kvs| ensures kvs[i] == (Flatten(kvs)[2 * i], Flatten(kvs)[2 * i + 1]) { FlatAt(kvs, i); }
  }

  /** Keys stay with their values: the pairs a hash was written from come back. */
  lemma {:induction false} FlattenInjective(a: seq<(Item, Item)>, b: seq<(Item, Item)>)
    requires Flatten(a) == Flatten(b)
    ensures a == b
  {
    if a != [] {
      var n := |a| - 1;
      assert Flatten(a)[..2 * n] == Flatten(a[..n]) && Flatten(b)[..2 * n] == Flatten(b[..n]);
      FlattenInjective(a[..n], b[..n]);
      assert Flatten(a)[2 * n] == a[n].0 && Flatten(a)[2 * n + 1] == a[n].1;
      assert Flatten(b)[2 * n] == b[n].0 && Flatten(b)[2 * n + 1] == b[n].1;
      assert a == a[..n] + [a[n]] && b == b[..n] + [b[n]];
    }
  }

  /** From the entries of a hash, keys and values in turn, to the pairs loaded. */
  lemma HashBack(header: seq<int>, es: seq<Entry>, rest: seq<int>, pairs: seq<(Item, Item)>, kvs: seq<(Item, Item)>)
    requires |header| == 10 && AllOk(es) && Items(es) == Flatten(pairs)
    requires Some(Flatten(kvs)) == WalkFrom(Ziplist(header, es) + rest, 10)
    ensures kvs == pairs
  {
    hide *;
    ZiplistBack(header, es, rest);
    FlattenInjective(kvs, pairs);
  }
}
