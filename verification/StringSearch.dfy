/** The substring search of src/base/bip_buf.c, as it is: a rolling sum that is right for the first
    candidate position and wrong for all later ones.  Bytes are integers 0..255; the source reads
    them as signed chars.  Positions stand for pointers, -1 for NULL. */
module StringSearch {

  const U32: int := 0x1_0000_0000

  /** An unsigned 32-bit sum. */
  function Mod32(x: int): int { x % U32 }

  /** The byte as a signed char. */
  function Signed(b: int): int { if b >= 128 then b - 256 else b }

  /** Sum of the signed chars h[i..j]. */
  function Sum(h: seq<int>, i: int, j: int): int
    requires 0 <= i && j <= |h|
    decreases j - i
  {
    if i < j then Signed(h[i]) + Sum(h, i + 1, j) else 0
  }

  lemma {:induction false} SumSnoc(h: seq<int>, i: int, j: int)
    requires 0 <= i <= j < |h|
    ensures Sum(h, i, j + 1) == Sum(h, i, j) + Signed(h[j])
    decreases j - i
  {
    if i < j { SumSnoc(h, i + 1, j); }
  }

  lemma SumHead(h: seq<int>, i: int, j: int)
    requires 0 <= i < j <= |h|
    ensures Sum(h, i, j) == Signed(h[i]) + Sum(h, i + 1, j)
  {
  }

  lemma {:induction false} SumSame(h: seq<int>, g: seq<int>, i: int, j: int, d: int)
    requires 0 <= i && 0 <= i + d && j <= |h| && j + d <= |g|
    requires forall x | i <= x < j :: h[x] == g[x + d]
    ensures Sum(h, i, j) == Sum(g, i + d, j + d)
    decreases j - i
  {
    if i < j { SumSame(h, g, i + 1, j, d); }
  }

  /** First position at or after i that holds b, or |h|. */
  function FirstAt(h: seq<int>, b: int, i: int): (r: int)
    requires 0 <= i <= |h|
    ensures i <= r <= |h| && (r < |h| ==> h[r] == b) && forall x | i <= x < r :: h[x] != b
    decreases |h| - i
  {
    if i == |h| || h[i] == b then i else FirstAt(h, b, i + 1)
  }

  predicate Occurs(h: seq<int>, needle: seq<int>, j: int) {
    0 <= j && j + |needle| <= |h| && h[j..j + |needle|] == needle
  }

  /** What the loop accepts instead of an occurrence: all but the last byte agree, and the last
      one is short by the needle's first. */
  predicate NearMiss(h: seq<int>, needle: seq<int>, j: int)
    requires needle != []
  {
    var n := |needle| - 1;
    && 0 <= j && j + n < |h| && h[j..j + n] == needle[..n] && h[j] == needle[0]
    && Mod32(Signed(needle[0]) + Signed(h[j + n]) - Signed(needle[n])) == 0
  }

  /** First near miss at or after i, or -1. */
  function FirstMiss(h: seq<int>, needle: seq<int>, i: int): (r: int)
    requires needle != [] && 0 <= i
    ensures -1 <= r && (r >= 0 ==> i <= r && NearMiss(h, needle, r))
    ensures forall x | i <= x < (if r >= 0 then r else |h|) :: !NearMiss(h, needle, x)
    decreases |h| - i
  {
    if i + |needle| > |h| then -1 else if NearMiss(h, needle, i) then i else FirstMiss(h, needle, i + 1)
  }

  /** What fast_strstr returns. */
  function Find(h: seq<int>, needle: seq<int>): int {
    if needle == [] then 0
    else
      var f := FirstAt(h, needle[0], 0);
      if f == |h| || f + |needle| > |h| then -1
      else if Occurs(h, needle, f) then f
      else FirstMiss(h, needle, f + 1)
  }

  lemma Wraps(a: int, b: int)
    ensures Mod32(Mod32(a) + b) == Mod32(a + b)
  {
  }

  /** fast_strstr. */
  method FastStrStr(h: seq<int>, needle: seq<int>) returns (r: int)
    ensures r == Find(h, needle)
  {
    if needle == [] { return 0; }
    var f := FirstAt(h, needle[0], 0);
    if f == |h| { return -1; }

    var i, n := f + 1, 1;
    var sums := Mod32(Signed(h[f]));
    var identical := true;
    assert Sum(h, f, i) == Signed(h[f]) && Sum(needle, 1, n) == 0;
    hide Sum, NearMiss, Signed, Mod32, FirstAt, FirstMiss;
    while i < |h| && n < |needle|
      invariant f < i <= |h| && 1 <= n <= |needle| && i == f + n
      invariant sums == Mod32(Sum(h, f, i) - Sum(needle, 1, n))
      invariant identical <==> h[f..i] == needle[..n]
    {
      SumSnoc(h, f, i);
      SumSnoc(needle, 1, n);
      Wraps(Sum(h, f, i) - Sum(needle, 1, n), Signed(h[i]));
      sums := Mod32(sums + Signed(h[i]));
      Wraps(Sum(h, f, i + 1) - Sum(needle, 1, n), -Signed(needle[n]));
      sums := Mod32(sums - Signed(needle[n]));
      SliceGrows(h, f, i, needle, n);
      identical := identical && h[i] == needle[n];
      i, n := i + 1, n + 1;
    }
    if n < |needle| { return -1; }
    assert needle[..n] == needle;
    if identical { return f; }

    r := Slide(h, needle, f, sums);
  }

  /** The second loop of fast_strstr: the window slides on from position f. */
  method Slide(h: seq<int>, needle: seq<int>, f: int, start: int) returns (r: int)
    requires needle != [] && 0 <= f && f + |needle| <= |h|
    requires start == Mod32(Sum(h, f, f + |needle|) - Sum(needle, 1, |needle|))
    ensures r == FirstMiss(h, needle, f + 1)
  {
    hide Sum, NearMiss, Signed, Mod32, FirstMiss;
    var n, i, sums := |needle|, f + |needle|, start;
    var last := n - 1;
    var sub := f;
    while i < |h|
      invariant f <= sub && i == sub + n && i <= |h|
      invariant sums == Mod32(Sum(h, sub, i) - Sum(needle, 1, n))
      invariant FirstMiss(h, needle, f + 1) == FirstMiss(h, needle, sub + 1)
    {
      SumHead(h, sub, i);
      SumSnoc(h, sub + 1, i);
      Wraps(Sum(h, sub, i) - Sum(needle, 1, n), -Signed(h[sub]));
      sums := Mod32(sums - Signed(h[sub]));
      sub := sub + 1;
      Wraps(Sum(h, sub, i) - Sum(needle, 1, n), Signed(h[i]));
      sums := Mod32(sums + Signed(h[i]));
      i := i + 1;
      MissTest(h, needle, sub);
      NextMiss(h, needle, sub);
      if sums == 0 && needle[0] == h[sub] && h[sub..sub + last] == needle[..last] { return sub; }
    }
    NoMoreMiss(h, needle, sub + 1);
    return -1;
  }

  lemma SliceGrows(h: seq<int>, f: int, i: int, needle: seq<int>, n: int)
    requires 0 <= f <= i < |h| && 0 <= n < |needle| && i == f + n
    ensures h[f..i + 1] == needle[..n + 1] <==> h[f..i] == needle[..n] && h[i] == needle[n]
  {
    assert h[f..i + 1] == h[f..i] + [h[i]] && needle[..n + 1] == needle[..n] + [needle[n]];
  }

  lemma NextMiss(h: seq<int>, needle: seq<int>, i: int)
    requires needle != [] && 0 <= i && i + |needle| <= |h|
    ensures FirstMiss(h, needle, i) == if NearMiss(h, needle, i) then i else FirstMiss(h, needle, i + 1)
  {
  }

  lemma NoMoreMiss(h: seq<int>, needle: seq<int>, i: int)
    requires needle != [] && 0 <= i && i + |needle| > |h|
    ensures FirstMiss(h, needle, i) == -1
  {
  }

  /** With all but the last byte equal, the sums differ by the first byte and the last ones. */
  lemma WindowSum(h: seq<int>, needle: seq<int>, j: int)
    requires needle != [] && 0 <= j && j + |needle| <= |h|
    ensures var n := |needle| - 1;
            h[j..j + n] == needle[..n] ==>
              Sum(h, j, j + n + 1) - Sum(needle, 1, n + 1) == Signed(needle[0]) + Signed(h[j + n]) - Signed(needle[n])
  {
    var n := |needle| - 1;
    if n > 0 && h[j..j + n] == needle[..n] {
      SumSnoc(h, j, j + n);
      SumSnoc(needle, 1, n);
      assert forall x | 0 <= x < n :: h[j..j + n][x] == needle[..n][x];
      assert forall x | j <= x < j + n :: h[x] == needle[x - j];
      SumSame(h, needle, j, j + n, -j);
    }
  }

  /** The test of the loop is NearMiss. */
  lemma MissTest(h: seq<int>, needle: seq<int>, j: int)
    requires needle != [] && 0 <= j && j + |needle| <= |h|
    ensures var n := |needle| - 1;
            (Mod32(Sum(h, j, j + n + 1) - Sum(needle, 1, n + 1)) == 0 && needle[0] == h[j]
              && h[j..j + n] == needle[..n])
            <==> NearMiss(h, needle, j)
  {
    hide Sum, Mod32, Signed;
    WindowSum(h, needle, j);
  }

  // ---------------------------------------------------------------- how far it is right

  /** The first occurrence, or -1: what the documentation of fast_strstr promises. */
  function FirstOccurrence(h: seq<int>, needle: seq<int>, i: int): (r: int)
    requires 0 <= i
    ensures -1 <= r && (r >= 0 ==> i <= r && Occurs(h, needle, r))
    ensures forall x | i <= x < (if r >= 0 then r else |h| + 1) :: !Occurs(h, needle, x)
    decreases |h| - i
  {
    if i + |needle| > |h| then -1 else if Occurs(h, needle, i) then i else FirstOccurrence(h, needle, i + 1)
  }

  /** Bytes, and a needle that does not start with a zero byte. */
  predicate Searchable(h: seq<int>, needle: seq<int>) {
    && (forall i | 0 <= i < |h| :: 0 <= h[i] < 256) && (forall i | 0 <= i < |needle| :: 0 <= needle[i] < 256)
    && needle != [] && needle[0] != 0
  }

  /** The search is right exactly if the first candidate is an occurrence, or there is neither an
      occurrence nor a near miss behind it. */
  lemma FindIsFirstOccurrence(h: seq<int>, needle: seq<int>)
    requires Searchable(h, needle)
    ensures var f := FirstAt(h, needle[0], 0);
            Find(h, needle) == FirstOccurrence(h, needle, 0)
            <==> || Occurs(h, needle, f)
                 || (forall x | f <= x <= |h| - |needle| ::
                     !Occurs(h, needle, x) && (f < x ==> !NearMiss(h, needle, x)))
  {
    var f, r := FirstAt(h, needle[0], 0), FirstOccurrence(h, needle, 0);
    forall x | 0 <= x < f ensures !Occurs(h, needle, x) {
      OccursIndex(h, needle, x, 0);
    }
    if 0 <= Find(h, needle) && !Occurs(h, needle, f) { MissIsNoOccurrence(h, needle, Find(h, needle)); }
  }

  lemma MissIsNoOccurrence(h: seq<int>, needle: seq<int>, j: int)
    requires Searchable(h, needle) && NearMiss(h, needle, j)
    ensures !Occurs(h, needle, j)
  {
    OccursIndex(h, needle, j, |needle| - 1);
  }

  lemma OccursIndex(h: seq<int>, needle: seq<int>, j: int, i: int)
    requires 0 <= i < |needle| && 0 <= j
    ensures Occurs(h, needle, j) ==> j + i < |h| && h[j + i] == needle[i]
  {
    if Occurs(h, needle, j) { assert h[j..j + |needle|][i] == h[j + i]; }
  }

  /** A carriage return inside the line is enough to hide its end. */
  lemma FindMisses()
    ensures var h := [65, 13, 66, 13, 10]; Find(h, [13, 10]) == -1 && Occurs(h, [13, 10], 3)
  {
    var h, nd := [65, 13, 66, 13, 10], [13, 10];
    assert FirstAt(h, 13, 1) == 1 && FirstAt(h, 13, 0) == 1;
    assert h[1..3] == [13, 66] && h[3..5] == nd;
    assert !NearMiss(h, nd, 2) && !NearMiss(h, nd, 3);
    assert FirstMiss(h, nd, 4) == -1 && FirstMiss(h, nd, 3) == -1;
  }
}
