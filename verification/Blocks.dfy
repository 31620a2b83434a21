/** How an index range of length sdim is spread over rdim <= sdim bins by the integer formula
    (i*rdim)/sdim, and sums over the resulting blocks (api/reduce_main.cpp). */
module Blocks {
  function Bin(i: nat, rdim: nat, sdim: nat): (b: nat)
    requires i < sdim
  {
    i * rdim / sdim
  }

  /** a divided by d, rounded up. */
  function CeilDiv(a: nat, d: nat): nat
    requires d > 0
  {
    if a == 0 then 0 else if a <= d then 1 else 1 + CeilDiv(a - d, d)
  }

  lemma {:induction false} CeilDivBounds(a: nat, d: nat)
    requires d > 0
    ensures a <= CeilDiv(a, d) * d < a + d
  {
    if a > d {
      CeilDivBounds(a - d, d);
      assert (1 + CeilDiv(a - d, d)) * d == d + CeilDiv(a - d, d) * d;
    }
  }

  /** The first index of block j. */
  function Lo(j: nat, rdim: nat, sdim: nat): nat
    requires rdim > 0
  {
    CeilDiv(j * sdim, rdim)
  }

  lemma {:induction false} Distribute(a: int, b: int, m: int)
    ensures (a - b) * m == a * m - b * m
  {
  }

  /** Multiplication by a positive factor keeps order both ways. */
  lemma {:induction false} MulLess(a: int, b: int, m: int)
    requires m > 0
    ensures (a * m < b * m <==> a < b) && (a * m <= b * m <==> a <= b)
  {
    var d := b - a;
    Distribute(b, a, m);
    assert d > 0 ==> d * m > 0;
    assert d < 0 ==> d * m < 0;
    assert d == 0 ==> d * m == 0;
  }

  lemma {:induction false} DivIs(a: nat, d: nat, q: nat)
    requires d > 0 && q * d <= a < q * d + d
    ensures a / d == q
  {
    DivBounds(a, d);
    var p := a / d;
    assert (q + 1) * d == q * d + d && (p + 1) * d == p * d + d;
    MulLess(p, q + 1, d);
    MulLess(q, p + 1, d);
  }

  lemma {:induction false} DivBounds(a: nat, d: nat)
    requires d > 0
    ensures (a / d) * d <= a < (a / d) * d + d
  {
  }

  lemma {:induction false} LoBounds(j: nat, rdim: nat, sdim: nat)
    requires rdim > 0
    ensures j * sdim <= Lo(j, rdim, sdim) * rdim < j * sdim + rdim
  {
    CeilDivBounds(j * sdim, rdim);
  }

  /** Against a multiple of rdim, the first index of a block decides like its exact quotient. */
  lemma {:induction false} LoDecides(i: nat, j: nat, rdim: nat, sdim: nat)
    requires rdim > 0
    ensures Lo(j, rdim, sdim) <= i <==> j * sdim <= i * rdim
  {
    var lo := Lo(j, rdim, sdim);
    LoBounds(j, rdim, sdim);
    MulLess(lo, i, rdim);
    MulLess(lo, i + 1, rdim);
    assert (i + 1) * rdim == i * rdim + rdim;
  }

  /** Block j is exactly the indices that the formula sends to bin j. */
  lemma {:induction false} BlockIs(i: nat, j: nat, rdim: nat, sdim: nat)
    requires 0 < rdim <= sdim && i < sdim
    ensures Bin(i, rdim, sdim) == j <==> Lo(j, rdim, sdim) <= i < Lo(j + 1, rdim, sdim)
  {
    var b, x := Bin(i, rdim, sdim), i * rdim;
    DivBounds(x, sdim);
    LoDecides(i, j, rdim, sdim);
    LoDecides(i, j + 1, rdim, sdim);
    assert (j + 1) * sdim == j * sdim + sdim;
    if j * sdim <= x < j * sdim + sdim {
      DivIs(x, sdim, j);
    }
  }

  /** The blocks are in order, none is empty, and together they are the whole range. */
  lemma {:induction false} BlocksTile(j: nat, rdim: nat, sdim: nat)
    requires 0 < rdim <= sdim
    ensures Lo(0, rdim, sdim) == 0 && Lo(rdim, rdim, sdim) == sdim
    ensures Lo(j, rdim, sdim) < Lo(j + 1, rdim, sdim)
    ensures j < rdim ==> Lo(j + 1, rdim, sdim) <= sdim
  {
    LoDecides(0, 0, rdim, sdim);
    LoEnds(rdim, sdim);
    LoGrows(j, rdim, sdim);
    if j < rdim {
      LoDecides(sdim, j + 1, rdim, sdim);
      MulLess(j + 1, rdim, sdim);
    }
  }

  lemma {:induction false} LoEnds(rdim: nat, sdim: nat)
    requires rdim > 0
    ensures Lo(rdim, rdim, sdim) == sdim
  {
    var e := Lo(rdim, rdim, sdim);
    LoBounds(rdim, rdim, sdim);
    assert rdim * sdim == sdim * rdim && (sdim + 1) * rdim == sdim * rdim + rdim;
    MulLess(sdim, e, rdim);
    MulLess(e, sdim + 1, rdim);
  }

  lemma {:induction false} LoGrows(j: nat, rdim: nat, sdim: nat)
    requires 0 < rdim <= sdim
    ensures Lo(j, rdim, sdim) < Lo(j + 1, rdim, sdim)
  {
    var lo, hi := Lo(j, rdim, sdim), Lo(j + 1, rdim, sdim);
    LoBounds(j, rdim, sdim);
    LoBounds(j + 1, rdim, sdim);
    assert (j + 1) * sdim == j * sdim + sdim;
    MulLess(lo, hi, rdim);
  }

  lemma {:induction false} BinInRange(i: nat, rdim: nat, sdim: nat)
    requires 0 < rdim && i < sdim
    ensures Bin(i, rdim, sdim) < rdim
  {
    DivBounds(i * rdim, sdim);
    assert i * rdim < sdim * rdim by { MulLess(i, sdim, rdim); }
    MulLess(Bin(i, rdim, sdim), rdim, sdim);
  }

  /** The next index stays in its bin or moves to the next one; the first is in bin 0 and the last in
      the last bin. */
  lemma {:induction false} BinStep(i: nat, rdim: nat, sdim: nat)
    requires 0 < rdim <= sdim && i < sdim
    ensures i == 0 ==> Bin(i, rdim, sdim) == 0
    ensures i + 1 == sdim ==> Bin(i, rdim, sdim) == rdim - 1
    ensures i + 1 < sdim ==> Bin(i, rdim, sdim) <= Bin(i + 1, rdim, sdim) <= Bin(i, rdim, sdim) + 1
    ensures i + 1 < sdim ==>
      (Bin(i + 1, rdim, sdim) == Bin(i, rdim, sdim) + 1 <==> i + 1 == Lo(Bin(i, rdim, sdim) + 1, rdim, sdim))
  {
    var b := Bin(i, rdim, sdim);
    BlockIs(i, b, rdim, sdim);
    BlocksTile(b, rdim, sdim);
    BlocksTile(b + 1, rdim, sdim);
    if i == 0 {
      BlockIs(0, 0, rdim, sdim);
      BlocksTile(0, rdim, sdim);
    }
    if i + 1 == sdim {
      BlockIs(i, rdim - 1, rdim, sdim);
      BlocksTile(rdim - 1, rdim, sdim);
    } else {
      BlockIs(i + 1, b, rdim, sdim);
      BlockIs(i + 1, b + 1, rdim, sdim);
    }
  }

  /* ---------- sums ---------- */

  function Sum(s: seq<real>): real {
    if s == [] then 0.0 else Sum(s[..|s| - 1]) + s[|s| - 1]
  }

  lemma {:induction false} SumSnoc(s: seq<real>, x: real)
    ensures Sum(s + [x]) == Sum(s) + x
  {
    assert (s + [x])[..|s|] == s;
  }

  lemma {:induction false} SumConcat(s: seq<real>, t: seq<real>)
    ensures Sum(s + t) == Sum(s) + Sum(t)
  {
    if t == [] {
      assert s + t == s;
    } else {
      var n := |t| - 1;
      SumConcat(s, t[..n]);
      assert s + t == (s + t[..n]) + [t[n]];
      SumSnoc(s + t[..n], t[n]);
    }
  }

  /** How many indices block j has. */
  function Count(j: nat, rdim: nat, sdim: nat): (c: nat)
    requires 0 < rdim <= sdim && j < rdim
    ensures c > 0
  {
    BlocksTile(j, rdim, sdim);
    Lo(j + 1, rdim, sdim) - Lo(j, rdim, sdim)
  }

  /** The range is spread evenly: no two blocks differ by more than one index in size. */
  lemma {:induction false} BlocksAreEven(j: nat, k: nat, rdim: nat, sdim: nat)
    requires 0 < rdim <= sdim && j < rdim && k < rdim
    ensures Count(j, rdim, sdim) <= Count(k, rdim, sdim) + 1
  {
    var a, b := Lo(j + 1, rdim, sdim) - Lo(j, rdim, sdim), Lo(k + 1, rdim, sdim) - Lo(k, rdim, sdim);
    BlockSize(j, rdim, sdim);
    BlockSize(k, rdim, sdim);
    assert (b + 2) * rdim == b * rdim + 2 * rdim;
    MulLess(a, b + 2, rdim);
  }

  lemma {:induction false} BlockSize(j: nat, rdim: nat, sdim: nat)
    requires 0 < rdim <= sdim
    ensures var n := Lo(j + 1, rdim, sdim) - Lo(j, rdim, sdim); sdim - rdim < n * rdim < sdim + rdim
  {
    LoBounds(j, rdim, sdim);
    LoBounds(j + 1, rdim, sdim);
    assert (j + 1) * sdim == j * sdim + sdim;
    Distribute(Lo(j + 1, rdim, sdim), Lo(j, rdim, sdim), rdim);
  }

  /** The block boundaries, with the end of the range. */
  function Cuts(rdim: nat, sdim: nat): (cuts: seq<nat>)
    requires rdim > 0
    ensures |cuts| == rdim + 1 && forall j :: 0 <= j <= rdim ==> cuts[j] == Lo(j, rdim, sdim)
  {
    seq(rdim + 1, j requires 0 <= j <= rdim => Lo(j, rdim, sdim))
  }

  predicate Piece(cuts: seq<nat>, j: nat, n: nat) {
    j + 1 < |cuts| && cuts[j] < cuts[j + 1] <= n
  }

  ghost predicate Tiles(cuts: seq<nat>, n: nat) {
    cuts != [] && cuts[0] == 0 && cuts[|cuts| - 1] == n && forall j :: 0 <= j < |cuts| - 1 ==> Piece(cuts, j, n)
  }

  lemma {:induction false} CutsTile(rdim: nat, sdim: nat)
    requires 0 < rdim <= sdim
    ensures Tiles(Cuts(rdim, sdim), sdim)
  {
    BlocksTile(0, rdim, sdim);
    forall j | 0 <= j < rdim ensures Piece(Cuts(rdim, sdim), j, sdim) { BlocksTile(j, rdim, sdim); }
  }

  function PieceSum(cuts: seq<nat>, s: seq<real>, j: nat): real
    requires Piece(cuts, j, |s|)
  {
    Sum(s[cuts[j]..cuts[j + 1]])
  }

  /** The sums over the blocks add up to the sum over the range. */
  lemma {:induction false} SumOfBlocks(cuts: seq<nat>, s: seq<real>, parts: seq<real>, n: nat)
    requires Tiles(cuts, |s|) && |parts| == |cuts| - 1 && n <= |parts|
    requires forall j :: 0 <= j < |parts| ==> Piece(cuts, j, |s|) && parts[j] == PieceSum(cuts, s, j)
    ensures cuts[n] <= |s| && Sum(parts[..n]) == Sum(s[..cuts[n]])
  {
    if n > 0 {
      assert Piece(cuts, n - 1, |s|);
      SumOfBlocks(cuts, s, parts, n - 1);
      var lo, hi := cuts[n - 1], cuts[n];
      SumConcat(s[..lo], s[lo..hi]);
      assert s[..lo] + s[lo..hi] == s[..hi];
      assert parts[..n][..n - 1] == parts[..n - 1];
    }
  }
}
