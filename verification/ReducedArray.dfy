/** The reducer itself: rows of the source array come in one at a time, and the reduced array is kept up
    to date in place (api/reduce_main.cpp, api/reduce.h). */
module ReducedArray {
  import opened Blocks
  import opened ReducedGrid

  const MAX_DATA := 65536
  const MAX_DIMX := 1024

  /** Of the entries from lo to hi, those among the first n. */
  function Between<T>(s: seq<T>, lo: nat, hi: nat, n: nat): seq<T>
    requires lo < hi <= |s| && n <= |s|
  {
    if n <= lo then [] else if n < hi then s[lo..n] else s[lo..hi]
  }

  lemma {:induction false} BetweenNext<T>(s: seq<T>, lo: nat, hi: nat, n: nat)
    requires lo < hi <= |s| && n < |s|
    ensures Between(s, lo, hi, 0) == [] && Between(s, lo, hi, |s|) == s[lo..hi]
    ensures Between(s, lo, hi, n + 1) == Between(s, lo, hi, n) + if lo <= n < hi then [s[n]] else []
  {
  }

  /** The entries of block j among the first n of a row. */
  function Part<T>(s: seq<T>, n: nat, j: nat, rdim: nat): seq<T>
    requires 0 < rdim <= |s| && j < rdim && n <= |s|
  {
    BlocksTile(j, rdim, |s|);
    Between(s, Lo(j, rdim, |s|), Lo(j + 1, rdim, |s|), n)
  }

  /** Entry n extends the part of its own block and no other. */
  lemma {:induction false} PartNext<T>(s: seq<T>, n: nat, j: nat, rdim: nat, ri: nat)
    requires 0 < rdim <= |s| && j < rdim && n < |s| && ri == Bin(n, rdim, |s|)
    ensures Part(s, n + 1, j, rdim) == Part(s, n, j, rdim) + if j == ri then [s[n]] else []
  {
    assert j == ri <==> Lo(j, rdim, |s|) <= n < Lo(j + 1, rdim, |s|) by { BlockIs(n, j, rdim, |s|); }
    BlocksTile(j, rdim, |s|);
    BetweenNext(s, Lo(j, rdim, |s|), Lo(j + 1, rdim, |s|), n);
  }

  lemma {:induction false} PartEnds<T>(s: seq<T>, j: nat, rdim: nat)
    requires 0 < rdim <= |s| && j < rdim
    ensures Part(s, 0, j, rdim) == [] && Part(s, |s|, j, rdim) == Block(s, j, rdim)
  {
    BlocksTile(j, rdim, |s|);
    BetweenNext(s, Lo(j, rdim, |s|), Lo(j + 1, rdim, |s|), 0);
  }

  /** The bins of a row, and how many entries went into each, after its first n entries. */
  function Bins(m: Reduction, row: seq<real>, n: nat, rdim: nat): (b: seq<real>)
    requires 0 < rdim <= |row| && n <= |row|
    ensures |b| == rdim
  {
    seq(rdim, j requires 0 <= j < rdim => Fold(m, Part(row, n, j, rdim)))
  }

  function Counts(row: seq<real>, n: nat, rdim: nat): (c: seq<int>)
    requires 0 < rdim <= |row| && n <= |row|
    ensures |c| == rdim
  {
    seq(rdim, j requires 0 <= j < rdim => |Part(row, n, j, rdim)|)
  }

  lemma {:induction false} BinsNextAt(m: Reduction, row: seq<real>, n: nat, rdim: nat, j: nat, ri: nat)
    requires 0 < rdim <= |row| && n < |row| && j < rdim && ri == Bin(n, rdim, |row|)
    ensures Bins(m, row, n + 1, rdim)[j] ==
      if j == ri then Accumulate(m, Bins(m, row, n, rdim)[j], row[n]) else Bins(m, row, n, rdim)[j]
    ensures Counts(row, n + 1, rdim)[j] == Counts(row, n, rdim)[j] + if j == ri then 1 else 0
  {
    PartNext(row, n, j, rdim, ri);
    FoldSnoc(m, Part(row, n, j, rdim), row[n]);
  }

  lemma {:induction false} BinsNext(m: Reduction, row: seq<real>, n: nat, rdim: nat, ri: nat)
    requires 0 < rdim <= |row| && n < |row| && ri == n * rdim / |row|
    ensures ri < rdim
    ensures Bins(m, row, n + 1, rdim) == Bins(m, row, n, rdim)[ri := Accumulate(m, Bins(m, row, n, rdim)[ri], row[n])]
    ensures Counts(row, n + 1, rdim) == Counts(row, n, rdim)[ri := Counts(row, n, rdim)[ri] + 1]
  {
    assert ri < rdim by { BinInRange(n, rdim, |row|); }
    var b, c := Bins(m, row, n, rdim), Counts(row, n, rdim);
    var b1, c1 := Bins(m, row, n + 1, rdim), Counts(row, n + 1, rdim);
    forall j | 0 <= j < rdim
      ensures b1[j] == if j == ri then Accumulate(m, b[j], row[n]) else b[j]
      ensures c1[j] == c[j] + if j == ri then 1 else 0
    {
      BinsNextAt(m, row, n, rdim, j, ri);
    }
  }

  lemma {:induction false} BinsStart(m: Reduction, row: seq<real>, rdim: nat)
    requires 0 < rdim <= |row|
    ensures Bins(m, row, 0, rdim) == Zeros(rdim) && Counts(row, 0, rdim) == seq(rdim, j => 0)
  {
    forall j | 0 <= j < rdim ensures Part(row, 0, j, rdim) == [] { PartEnds(row, j, rdim); }
  }

  /** After the whole row, the bins divided by their counts where an average is wanted are the reduced
      row. */
  lemma {:induction false} BinsEnd(m: Reduction, row: seq<real>, rdim: nat, j: nat)
    requires 0 < rdim < |row| && j < rdim
    ensures var a, c := Bins(m, row, |row|, rdim)[j], Counts(row, |row|, rdim)[j];
      ReducedRow(m, row, rdim)[j] == if m == Average then Divide(a, c) else a
  {
    PartEnds(row, j, rdim);
  }

  function Divide(a: real, n: int): real { if n > 1 then a / n as real else a }

  /** All of an array but n elements from off on is what was there before. */
  twostate predicate Elsewhere(a: array<real>, off: nat, n: nat)
    reads a
  {
    forall k :: 0 <= k < a.Length && !(off <= k < off + n) ==> a[k] == old(a[k])
  }

  function Splice(a: seq<real>, off: nat, s: seq<real>): (b: seq<real>)
    requires off + |s| <= |a|
    ensures |b| == |a|
  {
    a[..off] + s + a[off + |s|..]
  }

  lemma {:induction false} IsSplice(a: seq<real>, b: seq<real>, off: nat, s: seq<real>)
    requires |a| == |b| && off + |s| <= |a| && b[off..off + |s|] == s
    requires forall k :: 0 <= k < |a| && !(off <= k < off + |s|) ==> b[k] == a[k]
    ensures b == Splice(a, off, s)
  {
    forall k | 0 <= k < |a| ensures b[k] == Splice(a, off, s)[k] {
      if off <= k < off + |s| { assert b[k] == b[off..off + |s|][k - off]; }
    }
  }

  function Zeros(n: nat): seq<real> {
    seq(n, j => 0.0)
  }

  method ClearRow(a: array<real>, off: nat, n: nat)
    requires off + n <= a.Length
    modifies a
    ensures a[off..off + n] == Zeros(n) && a[..] == Splice(old(a[..]), off, Zeros(n))
    ensures Elsewhere(a, off, n)
  {
    ghost var was := a[..];
    for k := 0 to n
      invariant forall q :: off <= q < off + k ==> a[q] == 0.0
      invariant Elsewhere(a, off, n)
    {
      a[off + k] := 0.0;
    }
    IsSplice(was, a[..], off, Zeros(n));
  }

  function Divided(row: seq<real>, n: nat): (r: seq<real>)
    ensures |r| == |row|
  {
    seq(|row|, x requires 0 <= x < |row| => Divide(row[x], n))
  }

  method DivideRow(a: array<real>, off: nat, w: nat, n: nat)
    requires off + w <= a.Length
    modifies a
    ensures a[..] == Splice(old(a[..]), off, Divided(old(a[off..off + w]), n))
  {
    ghost var was, row := a[..], Divided(a[off..off + w], n);
    if n > 1 {
      for i := 0 to w
        invariant forall q :: off <= q < off + i ==> a[q] == old(a[q]) / n as real
        invariant forall q :: off + i <= q < off + w ==> a[q] == old(a[q])
        invariant Elsewhere(a, off, w)
      {
        a[off + i] := a[off + i] / n as real;
      }
    }
    assert a[off..off + w] == row;
    IsSplice(was, a[..], off, row);
  }

  method CopyRow(a: array<real>, off: nat, s: seq<real>)
    requires off + |s| <= a.Length
    modifies a
    ensures a[..] == Splice(old(a[..]), off, s)
  {
    ghost var was := a[..];
    for i := 0 to |s|
      invariant forall q :: off <= q < off + i ==> a[q] == s[q - off]
      invariant Elsewhere(a, off, |s|)
    {
      a[off + i] := s[i];
    }
    IsSplice(was, a[..], off, s);
  }

  method AddToRow(a: array<real>, off: nat, w: nat, s: seq<real>)
    requires off + w <= a.Length && |s| == w
    modifies a
    ensures a[..] == Splice(old(a[..]), off, Plus(old(a[off..off + w]), s))
  {
    ghost var was, row := a[..], Plus(a[off..off + w], s);
    for i := 0 to w
      invariant forall q :: off <= q < off + i ==> a[q] == old(a[q]) + s[q - off]
      invariant forall q :: off + i <= q < off + w ==> a[q] == old(a[q])
      invariant Elsewhere(a, off, w)
    {
      a[off + i] := a[off + i] + s[i];
    }
    assert a[off..off + w] == row;
    IsSplice(was, a[..], off, row);
  }

  method AddEntry(m: Reduction, x: real, out: array<real>, off: nat, itemp: array<int>, n: nat, ri: nat)
    requires ri < n <= itemp.Length && off + n <= out.Length
    modifies out, itemp
    ensures out[off..off + n] == old(out[off..off + n])[ri := Accumulate(m, old(out[off..off + n])[ri], x)]
    ensures m == Average ==> itemp[..n] == old(itemp[..n])[ri := old(itemp[ri]) + 1]
    ensures Elsewhere(out, off, n)
  {
    match m
    case Average =>
      out[off + ri] := out[off + ri] + x;
      itemp[ri] := itemp[ri] + 1;
    case Total =>
      out[off + ri] := out[off + ri] + x;
    case Smallest =>
      out[off + ri] := Min(out[off + ri], x);
    case Largest =>
      out[off + ri] := Max(out[off + ri], x);
  }

  /** The bins and counts after the first n entries; the counts matter for an average only. */
  predicate Filled(m: Reduction, inp: seq<real>, n: nat, rdim: nat, b: seq<real>, c: seq<int>)
    requires 0 < rdim <= |inp| && n <= |inp|
  {
    b == Bins(m, inp, n, rdim) && (m == Average ==> c == Counts(inp, n, rdim))
  }

  lemma {:induction false} FilledNext(m: Reduction, inp: seq<real>, n: nat, rdim: nat, ri: nat, b: seq<real>,
                                      c: seq<int>,
                                      b': seq<real>, c': seq<int>)
    requires 0 < rdim <= |inp| && n < |inp| && ri == n * rdim / |inp| && ri < rdim == |b| == |c|
    requires Filled(m, inp, n, rdim, b, c)
    requires b' == b[ri := Accumulate(m, b[ri], inp[n])] && (m == Average ==> c' == c[ri := c[ri] + 1])
    ensures Filled(m, inp, n + 1, rdim, b', c')
  {
    BinsNext(m, inp, n, rdim, ri);
  }

  /** Entry i goes into its bin. */
  method FillNext(m: Reduction, inp: seq<real>, i: nat, out: array<real>, off: nat, itemp: array<int>, rdimx: nat)
    requires 0 < rdimx <= |inp| && i < |inp| && rdimx <= itemp.Length && off + rdimx <= out.Length
    requires Filled(m, inp, i, rdimx, out[off..off + rdimx], itemp[..rdimx])
    modifies out, itemp
    ensures Filled(m, inp, i + 1, rdimx, out[off..off + rdimx], itemp[..rdimx])
    ensures Elsewhere(out, off, rdimx)
  {
    var ri := i * rdimx / |inp|;
    ghost var b, c := out[off..off + rdimx], itemp[..rdimx];
    assert ri < rdimx by { BinInRange(i, rdimx, |inp|); }
    AddEntry(m, inp[i], out, off, itemp, rdimx, ri);
    FilledNext(m, inp, i, rdimx, ri, b, c, out[off..off + rdimx], itemp[..rdimx]);
  }

  /** Each entry goes into its bin. */
  method FillBins(m: Reduction, inp: seq<real>, out: array<real>, off: nat, itemp: array<int>, rdimx: nat)
    requires 0 < rdimx <= |inp| && rdimx <= itemp.Length && off + rdimx <= out.Length
    requires out[off..off + rdimx] == Bins(m, inp, 0, rdimx)
    requires itemp[..rdimx] == Counts(inp, 0, rdimx)
    modifies out, itemp
    ensures out[off..off + rdimx] == Bins(m, inp, |inp|, rdimx)
    ensures m == Average ==> itemp[..rdimx] == Counts(inp, |inp|, rdimx)
    ensures Elsewhere(out, off, rdimx)
  {
    for i := 0 to |inp|
      invariant Filled(m, inp, i, rdimx, out[off..off + rdimx], itemp[..rdimx])
      invariant Elsewhere(out, off, rdimx)
    {
      FillNext(m, inp, i, out, off, itemp, rdimx);
    }
  }

  method DivideBins(out: array<real>, off: nat, itemp: array<int>, n: nat)
    requires off + n <= out.Length && n <= itemp.Length
    modifies out
    ensures forall j :: 0 <= j < n ==>
      out[off..off + n][j] == Divide(old(out[off..off + n])[j], itemp[j])
    ensures Elsewhere(out, off, n)
  {
    for i := 0 to n
      invariant forall q :: off <= q < off + i ==> out[q] == Divide(old(out[q]), itemp[q - off])
      invariant forall q :: off + i <= q < off + n ==> out[q] == old(out[q])
      invariant Elsewhere(out, off, n)
    {
      if itemp[i] > 1 {
        out[off + i] := out[off + i] / itemp[i] as real;
      }
    }
  }

  /** The row is cleared, then each entry is accumulated into its bin, and an average is divided by the
      number of entries. */
  method ReduceSourceRow(m: Reduction, inp: seq<real>, out: array<real>, off: nat, itemp: array<int>, rdimx: nat)
    requires 0 < rdimx < |inp| && rdimx <= itemp.Length && off + rdimx <= out.Length
    modifies out, itemp
    ensures out[off..off + rdimx] == ReducedRow(m, inp, rdimx)
    ensures out[..] == Splice(old(out[..]), off, ReducedRow(m, inp, rdimx))
  {
    ghost var was := out[..];
    ClearRow(out, off, rdimx);
    ClearCounts(itemp, rdimx);
    BinsStart(m, inp, rdimx);
    FillBins(m, inp, out, off, itemp, rdimx);
    ghost var b, c := out[off..off + rdimx], itemp[..rdimx];
    if m == Average {
      DivideBins(out, off, itemp, rdimx);
    }
    ReducedIs(m, inp, rdimx, b, c, out[off..off + rdimx]);
    IsSplice(was, out[..], off, ReducedRow(m, inp, rdimx));
  }

  method ClearCounts(itemp: array<int>, n: nat)
    requires n <= itemp.Length
    modifies itemp
    ensures itemp[..n] == seq(n, j => 0)
  {
    for k := 0 to n
      invariant forall j :: 0 <= j < k ==> itemp[j] == 0
    {
      itemp[k] := 0;
    }
  }

  lemma {:induction false} ReducedIs(m: Reduction, inp: seq<real>, rdimx: nat, b: seq<real>, c: seq<int>, r: seq<real>)
    requires 0 < rdimx < |inp| && |r| == rdimx == |c| && Filled(m, inp, |inp|, rdimx, b, c)
    requires if m == Average then forall j :: 0 <= j < rdimx ==> r[j] == Divide(b[j], c[j]) else r == b
    ensures r == ReducedRow(m, inp, rdimx)
  {
    forall j | 0 <= j < rdimx ensures r[j] == ReducedRow(m, inp, rdimx)[j] {
      BinsEnd(m, inp, rdimx, j);
    }
  }

  lemma {:induction false} RowFits(j: nat, rdimx: nat, rdimy: nat)
    requires j < rdimy && rdimx <= 256 && rdimy <= 128
    ensures j * rdimx + rdimx <= MAX_DATA
  {
    MulLessOrEqual(j + 1, rdimy, rdimx);
    assert (j + 1) * rdimx == j * rdimx + rdimx;
    MulLessOrEqual(rdimx, 256, rdimy);
    assert rdimx * rdimy == rdimy * rdimx;
  }

  lemma {:induction false} MulLessOrEqual(a: nat, b: nat, m: nat)
    requires a <= b
    ensures a * m <= b * m
  {
    if m > 0 { MulLess(a, b, m); }
  }

  lemma {:induction false} RowsApart(j: nat, k: nat, rdimx: nat)
    requires j < k
    ensures j * rdimx + rdimx <= k * rdimx
  {
    MulLessOrEqual(j + 1, k, rdimx);
    assert (j + 1) * rdimx == j * rdimx + rdimx;
  }

  /* ---------- the reduced array as a value ---------- */

  /** The fields of REDUCED_ARRAY_GEN. */
  datatype Gen = Gen(sdimx: nat, sdimy: nat, rdimx: nat, rdimy: nat, reduceMethod: Reduction, rdata: seq<real>,
                     lastRy: nat, lastRyCount: nat, nvalidRows: nat, rdataMax: real, rdataMin: real)

  ghost predicate Shape(g: Gen) {
    |g.rdata| == MAX_DATA &&
    g.rdimx == (if g.sdimx > 256 then 256 else g.sdimx) && g.rdimy == (if g.sdimy > 128 then 128 else g.sdimy)
  }

  /** Where row j begins (REDUCED_ARRAY_DATA::rrow). */
  function Rrow(j: nat, rdimx: nat): nat {
    j * rdimx
  }

  ghost function Row(g: Gen, j: nat): (r: seq<real>)
    requires Shape(g) && j < g.rdimy
    ensures |r| == g.rdimx
  {
    RowFits(j, g.rdimx, g.rdimy);
    var off := Rrow(j, g.rdimx);
    g.rdata[off..off + g.rdimx]
  }

  lemma {:induction false} SpliceSlices(a: seq<real>, off: nat, s: seq<real>, k: nat)
    requires off + |s| <= |a| && k + |s| <= |a| && (k == off || k + |s| <= off || off + |s| <= k)
    ensures Splice(a, off, s)[k..k + |s|] == if k == off then s else a[k..k + |s|]
  {
  }

  ghost function Put(g: Gen, j: nat, row: seq<real>): (h: Gen)
    requires Shape(g) && j < g.rdimy && |row| == g.rdimx
    ensures Shape(h)
  {
    RowFits(j, g.rdimx, g.rdimy);
    g.(rdata := Splice(g.rdata, Rrow(j, g.rdimx), row))
  }

  lemma {:induction false} PutRow(g: Gen, j: nat, row: seq<real>, k: nat)
    requires Shape(g) && j < g.rdimy && |row| == g.rdimx && k < g.rdimy
    ensures Row(Put(g, j, row), k) == if k == j then row else Row(g, k)
  {
    RowFits(j, g.rdimx, g.rdimy);
    RowFits(k, g.rdimx, g.rdimy);
    if k < j { RowsApart(k, j, g.rdimx); } else if j < k { RowsApart(j, k, g.rdimx); }
    SpliceSlices(g.rdata, Rrow(j, g.rdimx), row, Rrow(k, g.rdimx));
    if k != j && Rrow(k, g.rdimx) == Rrow(j, g.rdimx) { assert g.rdimx == 0; }
  }

  /** update_max() and the counting of the row. */
  ghost function Finish(g: Gen, j: nat): (h: Gen)
    requires Shape(g) && j < g.rdimy
    ensures Shape(h)
  {
    g.(rdataMax := Top(g.rdataMax, Row(g, j)), rdataMin := Bottom(g.rdataMin, Row(g, j)),
       nvalidRows := g.nvalidRows + 1)
  }

  /** Row j holds the mean of the reduced source rows of its block, all of which have come in. */
  ghost predicate RowDone(g: Gen, reds: seq<seq<real>>, j: nat)
    requires Shape(g) && j < g.rdimy && Wide(reds, g.rdimx)
  {
    BlocksTile(j, g.rdimy, g.sdimy);
    var lo, hi := Lo(j, g.rdimy, g.sdimy), Lo(j + 1, g.rdimy, g.sdimy);
    hi <= |reds| && Row(g, j) == MeanRow(reds[lo..hi], g.rdimx)
  }

  ghost function DoneRows(g: Gen, n: nat): (done: seq<seq<real>>)
    requires Shape(g) && n <= g.rdimy
    ensures |done| == n
  {
    seq(n, j requires 0 <= j < n => Row(g, j))
  }

  /** The first n rows are done, and the extremes are theirs. */
  ghost predicate Done(g: Gen, reds: seq<seq<real>>, n: nat) {
    Shape(g) && n == g.nvalidRows <= g.rdimy && Wide(reds, g.rdimx) &&
    (forall j :: 0 <= j < n ==> RowDone(g, reds, j)) &&
    g.rdataMax == TopRows(DoneRows(g, n)) && g.rdataMin == BottomRows(DoneRows(g, n))
  }

  /** Writing to a row that is not done yet changes nothing about those that are. */
  lemma {:induction false} PutKeepsDone(g: Gen, reds: seq<seq<real>>, n: nat, j: nat, row: seq<real>)
    requires Done(g, reds, n) && n <= j < g.rdimy && |row| == g.rdimx
    ensures Done(Put(g, j, row), reds, n)
  {
    var h := Put(g, j, row);
    forall k | 0 <= k < n ensures Row(h, k) == Row(g, k) { PutRow(g, j, row, k); }
    forall k | 0 <= k < n ensures RowDone(h, reds, k) { assert RowDone(g, reds, k); }
    assert DoneRows(h, n) == DoneRows(g, n);
  }

  /** More source rows change nothing about the rows that are done. */
  lemma {:induction false} MoreKeepsDone(g: Gen, reds: seq<seq<real>>, n: nat, red: seq<real>)
    requires Done(g, reds, n) && |red| == g.rdimx
    ensures Done(g, reds + [red], n)
  {
    forall j | 0 <= j < n ensures RowDone(g, reds + [red], j) {
      assert RowDone(g, reds, j);
      BlocksTile(j, g.rdimy, g.sdimy);
      var lo, hi := Lo(j, g.rdimy, g.sdimy), Lo(j + 1, g.rdimy, g.sdimy);
      assert (reds + [red])[lo..hi] == reds[lo..hi];
    }
  }

  /** The next row is done when it holds its mean. */
  lemma {:induction false} FinishIsDone(g: Gen, reds: seq<seq<real>>, n: nat)
    requires Done(g, reds, n) && n < g.rdimy && RowDone(g, reds, n)
    ensures Done(Finish(g, n), reds, n + 1)
  {
    var h := Finish(g, n);
    forall k | 0 <= k < n + 1 ensures RowDone(h, reds, k) {
      assert RowDone(g, reds, k) && Row(h, k) == Row(g, k);
    }
    ExtremesNext(g, h, n);
  }

  lemma {:induction false} ExtremesNext(g: Gen, h: Gen, n: nat)
    requires Shape(g) && n < g.rdimy && h == Finish(g, n)
    requires g.rdataMax == TopRows(DoneRows(g, n)) && g.rdataMin == BottomRows(DoneRows(g, n))
    ensures h.rdataMax == TopRows(DoneRows(h, n + 1)) && h.rdataMin == BottomRows(DoneRows(h, n + 1))
  {
    assert DoneRows(h, n + 1) == DoneRows(g, n) + [Row(g, n)];
    assert DoneRows(h, n + 1)[..n] == DoneRows(g, n);
  }

  /* ---------- row by row ---------- */

  /** The row of the result that the n-th source row went to. */
  ghost function Last(n: nat, rdimy: nat, sdimy: nat): nat
    requires n <= sdimy
  {
    if n == 0 then 0 else Bin(n - 1, rdimy, sdimy)
  }

  /** After the source rows reds, each reduced, the array is as it should be. */
  ghost predicate Good(g: Gen, reds: seq<seq<real>>) {
    var n := |reds|;
    Shape(g) && n <= g.sdimy && Wide(reds, g.rdimx) &&
    if g.rdimy == g.sdimy then Done(g, reds, n)
    else
      g.lastRy == Last(n, g.rdimy, g.sdimy) && Done(g, reds, if n == g.sdimy then g.rdimy else g.lastRy) &&
      (n < g.sdimy ==> g.lastRyCount == n - Lo(g.lastRy, g.rdimy, g.sdimy)) &&
      (0 < n < g.sdimy ==> Summed(g, reds))
  }

  /** The current row holds the sum of the reduced source rows of its block so far. */
  ghost predicate Summed(g: Gen, reds: seq<seq<real>>)
    requires Shape(g) && Wide(reds, g.rdimx)
  {
    g.lastRy < g.rdimy &&
    var lo := Lo(g.lastRy, g.rdimy, g.sdimy);
    lo <= |reds| && Row(g, g.lastRy) == SumRow(reds[lo..], g.rdimx)
  }

  /** When all source rows came in, every row of the result is done. */
  lemma {:induction false} GoodIsComplete(g: Gen, reds: seq<seq<real>>, j: nat)
    requires Good(g, reds) && |reds| == g.sdimy && j < g.rdimy
    ensures g.nvalidRows == g.rdimy
    ensures Row(g, j) == FinalRow(reds, g.rdimy, g.rdimx, j)
    ensures g.rdataMax == TopRows(DoneRows(g, g.rdimy)) && g.rdataMin == BottomRows(DoneRows(g, g.rdimy))
  {
    assert RowDone(g, reds, j);
  }

  /** The layout of the finished buffer: row after row, rdimx cells each. Cell x of row j is the mean, at x, of
      the reduced source rows i with i * rdimy / sdimy == j; these are the rows from lo to hi. */
  lemma {:induction false} BufferCells(g: Gen, reds: seq<seq<real>>, j: nat, x: nat, i: nat)
    returns (lo: nat, hi: nat, at: nat)
    requires Good(g, reds) && |reds| == g.sdimy && j < g.rdimy && x < g.rdimx && i < g.sdimy
    ensures lo < hi <= |reds| && (lo <= i < hi <==> i * g.rdimy / g.sdimy == j)
    ensures Wide(reds[lo..hi], g.rdimx) && at == j * g.rdimx + x && at < |g.rdata|
    ensures g.rdata[at] == Sum(Column(reds[lo..hi], x)) / (hi - lo) as real
  {
    lo, hi := RowsOf(i, j, g.rdimy, g.sdimy);
    at := Rrow(j, g.rdimx) + x;
    CellAt(g, reds, j, x, lo, hi, at);
  }

  lemma {:induction false} RowsOf(i: nat, j: nat, rdim: nat, sdim: nat) returns (lo: nat, hi: nat)
    requires j < rdim <= sdim && i < sdim
    ensures lo == Lo(j, rdim, sdim) < hi == Lo(j + 1, rdim, sdim) <= sdim
    ensures lo <= i < hi <==> i * rdim / sdim == j
  {
    lo, hi := Lo(j, rdim, sdim), Lo(j + 1, rdim, sdim);
    BlockIs(i, j, rdim, sdim);
    BlocksTile(j, rdim, sdim);
  }

  lemma {:induction false} CellAt(g: Gen, reds: seq<seq<real>>, j: nat, x: nat, lo: nat, hi: nat, at: nat)
    requires Good(g, reds) && |reds| == g.sdimy && j < g.rdimy && x < g.rdimx && at == Rrow(j, g.rdimx) + x
    requires lo == Lo(j, g.rdimy, g.sdimy) < hi == Lo(j + 1, g.rdimy, g.sdimy) <= |reds|
    ensures Wide(reds[lo..hi], g.rdimx) && at < |g.rdata|
    ensures g.rdata[at] == Sum(Column(reds[lo..hi], x)) / (hi - lo) as real
  {
    RowFits(j, g.rdimx, g.rdimy);
    GoodIsComplete(g, reds, j);
    assert g.rdata[at] == Row(g, j)[x];
  }

  lemma {:induction false} GoodEqual(g: Gen, reds: seq<seq<real>>, red: seq<real>)
    requires Good(g, reds) && |reds| < g.sdimy == g.rdimy && |red| == g.rdimx
    ensures Good(Finish(Put(g, |reds|, red), |reds|), reds + [red])
  {
    var n := |reds|;
    var h := Put(g, n, red);
    var reds1 := reds + [red];
    PutKeepsDone(g, reds, n, n, red);
    MoreKeepsDone(h, reds, n, red);
    assert RowDone(h, reds1, n) by {
      PutRow(g, n, red, n);
      LoOfEqual(n, g.sdimy);
      LoOfEqual(n + 1, g.sdimy);
      assert reds1[n..n + 1] == [] + [red];
      forall x | 0 <= x < g.rdimx ensures MeanRow(reds1[n..n + 1], g.rdimx)[x] == red[x] { ColumnSnoc([], red, x); }
    }
    FinishIsDone(h, reds1, n);
  }

  /** Before a source row is added: its row of the result is the current one, with the sum so far. */
  ghost predicate Entered(g: Gen, reds: seq<seq<real>>) {
    var n := |reds|;
    Shape(g) && n < g.sdimy && g.rdimy < g.sdimy && Wide(reds, g.rdimx) &&
    g.lastRy == Bin(n, g.rdimy, g.sdimy) && Done(g, reds, g.lastRy) &&
    Summed(g, reds) && g.lastRyCount == n - Lo(g.lastRy, g.rdimy, g.sdimy)
  }

  lemma {:induction false} SumOfNone(w: nat)
    ensures SumRow([], w) == Zeros(w)
  {
  }

  lemma {:induction false} EnterFirst(g: Gen)
    requires Good(g, []) && g.rdimy < g.sdimy
    ensures Entered(Put(g, 0, Zeros(g.rdimx)), [])
  {
    BinStep(0, g.rdimy, g.sdimy);
    BlocksTile(0, g.rdimy, g.sdimy);
    PutKeepsDone(g, [], 0, 0, Zeros(g.rdimx));
    PutRow(g, 0, Zeros(g.rdimx), 0);
    SumOfNone(g.rdimx);
  }

  lemma {:induction false} EnterSame(g: Gen, reds: seq<seq<real>>)
    requires Good(g, reds) && 0 < |reds| < g.sdimy && g.rdimy < g.sdimy
    requires Bin(|reds|, g.rdimy, g.sdimy) <= g.lastRy
    ensures Entered(g, reds)
  {
    BinStep(|reds| - 1, g.rdimy, g.sdimy);
    BinInRange(|reds|, g.rdimy, g.sdimy);
  }

  /** A sum divided by the number of its terms is their mean. */
  lemma {:induction false} DividedIsMean(rows: seq<seq<real>>, w: nat)
    requires rows != [] && Wide(rows, w)
    ensures Divided(SumRow(rows, w), |rows|) == MeanRow(rows, w)
  {
  }

  /** Finishing the current row when its block is complete. */
  lemma {:induction false} FinishCurrent(g: Gen, reds: seq<seq<real>>)
    requires Shape(g) && Wide(reds, g.rdimx) && 0 < g.rdimy < g.sdimy && g.lastRy < g.rdimy
    requires Done(g, reds, g.lastRy) && Summed(g, reds) && |reds| == Lo(g.lastRy + 1, g.rdimy, g.sdimy)
    requires g.lastRyCount == |reds| - Lo(g.lastRy, g.rdimy, g.sdimy)
    ensures Done(Finish(Put(g, g.lastRy, Divided(Row(g, g.lastRy), g.lastRyCount)), g.lastRy), reds, g.lastRy + 1)
  {
    var j := g.lastRy;
    var row := Divided(Row(g, j), g.lastRyCount);
    var h := Put(g, j, row);
    assert Done(h, reds, j) by { PutKeepsDone(g, reds, j, j, row); }
    assert RowDone(h, reds, j) by {
      BlocksTile(j, g.rdimy, g.sdimy);
      var lo := Lo(j, g.rdimy, g.sdimy);
      DividedIsMean(reds[lo..], g.rdimx);
      PutRow(g, j, row, j);
      assert reds[lo..|reds|] == reds[lo..];
    }
    FinishIsDone(h, reds, j);
  }

  /** A cleared current row holds the sum of no rows. */
  lemma {:induction false} StartRow(g: Gen, reds: seq<seq<real>>)
    requires g.lastRy < g.rdimy && Done(g, reds, g.lastRy) && |reds| == Lo(g.lastRy, g.rdimy, g.sdimy) && g.rdimy > 0
    ensures var h := Put(g, g.lastRy, Zeros(g.rdimx)); Done(h, reds, g.lastRy) && Summed(h, reds)
  {
    PutKeepsDone(g, reds, g.lastRy, g.lastRy, Zeros(g.rdimx));
    PutRow(g, g.lastRy, Zeros(g.rdimx), g.lastRy);
    SumOfNone(g.rdimx);
    assert reds[|reds|..] == [];
  }

  lemma {:induction false} EnterNext(g: Gen, reds: seq<seq<real>>, f: Gen)
    requires Good(g, reds) && 0 < |reds| < g.sdimy && g.rdimy < g.sdimy
    requires Bin(|reds|, g.rdimy, g.sdimy) > g.lastRy
    requires f == Finish(Put(g, g.lastRy, Divided(Row(g, g.lastRy), g.lastRyCount)), g.lastRy)
    ensures g.lastRy + 1 == Bin(|reds|, g.rdimy, g.sdimy) < g.rdimy
    ensures Entered(Put(f.(lastRy := g.lastRy + 1, lastRyCount := 0), g.lastRy + 1, Zeros(g.rdimx)), reds)
  {
    NextBin(g, reds);
    FinishCurrent(g, reds);
    var h := f.(lastRy := g.lastRy + 1, lastRyCount := 0);
    CountKeepsDone(f, h, reds, h.lastRy);
    StartRow(h, reds);
  }

  /** A source row that goes to a later row of the result goes to the next one, and comes first there. */
  lemma {:induction false} NextBin(g: Gen, reds: seq<seq<real>>)
    requires Good(g, reds) && 0 < |reds| < g.sdimy && g.rdimy < g.sdimy
    requires Bin(|reds|, g.rdimy, g.sdimy) > g.lastRy
    ensures 0 < g.rdimy && g.lastRy + 1 == Bin(|reds|, g.rdimy, g.sdimy) < g.rdimy
    ensures |reds| == Lo(g.lastRy + 1, g.rdimy, g.sdimy)
  {
    BinStep(|reds| - 1, g.rdimy, g.sdimy);
    BinInRange(|reds|, g.rdimy, g.sdimy);
  }

  /** The source row is added to the current row. */
  ghost function Added(g: Gen, red: seq<real>): (h: Gen)
    requires Shape(g) && g.lastRy < g.rdimy && |red| == g.rdimx
    ensures Shape(h)
  {
    Put(g, g.lastRy, Plus(Row(g, g.lastRy), red)).(lastRyCount := g.lastRyCount + 1)
  }

  lemma {:induction false} AddedIsSummed(g: Gen, reds: seq<seq<real>>, red: seq<real>)
    requires Entered(g, reds) && |red| == g.rdimx
    ensures var h := Added(g, red);
      Done(h, reds + [red], g.lastRy) && Summed(h, reds + [red]) &&
      h.lastRyCount == |reds| + 1 - Lo(h.lastRy, h.rdimy, h.sdimy)
  {
    AddedKeepsDone(g, reds, red, Added(g, red));
    AddedRowIsSum(g, reds, red);
  }

  lemma {:induction false} AddedKeepsDone(g: Gen, reds: seq<seq<real>>, red: seq<real>, h: Gen)
    requires Done(g, reds, g.lastRy) && g.lastRy < g.rdimy && |red| == g.rdimx && h == Added(g, red)
    ensures Done(h, reds + [red], g.lastRy)
  {
    var row := Plus(Row(g, g.lastRy), red);
    PutKeepsDone(g, reds, g.lastRy, g.lastRy, row);
    var p := Put(g, g.lastRy, row);
    MoreKeepsDone(p, reds, g.lastRy, red);
    CountKeepsDone(p, h, reds + [red], g.lastRy);
  }

  /** Which row is current and how many source rows are in it does not concern the rows that are done. */
  lemma {:induction false} CountKeepsDone(g: Gen, h: Gen, reds: seq<seq<real>>, n: nat)
    requires Done(g, reds, n) && h == g.(lastRy := h.lastRy, lastRyCount := h.lastRyCount)
    ensures Done(h, reds, n)
  {
    forall j | 0 <= j < n ensures RowDone(h, reds, j) {
      assert RowDone(g, reds, j) && Row(h, j) == Row(g, j);
    }
    assert DoneRows(h, n) == DoneRows(g, n);
  }

  lemma {:induction false} AddedRowIsSum(g: Gen, reds: seq<seq<real>>, red: seq<real>)
    requires Shape(g) && Wide(reds, g.rdimx) && Summed(g, reds) && |red| == g.rdimx
    ensures Summed(Added(g, red), reds + [red])
  {
    var lo := Lo(g.lastRy, g.rdimy, g.sdimy);
    PutRow(g, g.lastRy, Plus(Row(g, g.lastRy), red), g.lastRy);
    SumRowSnoc(reds[lo..], red, g.rdimx);
    assert (reds + [red])[lo..] == reds[lo..] + [red];
    assert Row(Added(g, red), g.lastRy) == Row(Put(g, g.lastRy, Plus(Row(g, g.lastRy), red)), g.lastRy);
  }

  /** A source row that is not the last one leaves the array as it should be. */
  lemma {:induction false} AddedIsGood(g: Gen, reds: seq<seq<real>>, red: seq<real>)
    requires Entered(g, reds) && |red| == g.rdimx && |reds| + 1 < g.sdimy
    ensures Good(Added(g, red), reds + [red])
  {
    AddedIsSummed(g, reds, red);
  }

  /** The last source row also finishes the last row of the result. */
  lemma {:induction false} LastIsGood(g: Gen, reds: seq<seq<real>>, red: seq<real>)
    requires Entered(g, reds) && |red| == g.rdimx && |reds| + 1 == g.sdimy
    ensures var h := Added(g, red);
      h.lastRy == g.rdimy - 1 &&
      Good(Finish(Put(h, h.lastRy, Divided(Row(h, h.lastRy), h.lastRyCount)), h.lastRy), reds + [red])
  {
    AddedIsSummed(g, reds, red);
    BinStep(|reds|, g.rdimy, g.sdimy);
    BlocksTile(g.lastRy, g.rdimy, g.sdimy);
    FinishCurrent(Added(g, red), reds + [red]);
  }

  lemma {:induction false} EmptyIsGood(g: Gen)
    requires Shape(g) && g.lastRy == 0 && g.lastRyCount == 0 && g.nvalidRows == 0
    requires g.rdataMax == 0.0 && g.rdataMin == MIN_START
    ensures Good(g, [])
  {
    if g.rdimy < g.sdimy {
      BlocksTile(0, g.rdimy, g.sdimy);
    }
    assert DoneRows(g, 0) == [];
  }

  lemma {:induction false} CapsFit(rdimx: nat, rdimy: nat)
    requires rdimx <= 256 && rdimy <= 128
    ensures rdimx * rdimy <= MAX_DATA
  {
    MulLessOrEqual(rdimx, 256, rdimy);
  }

  /* ---------- conservation, on the buffer ---------- */

  /** What row j of the buffer stands for: its weighted cells, times the number of source rows in it. */
  ghost function Stake(g: Gen, j: nat): real
    requires Shape(g) && j < g.rdimy
  {
    Weighted(Count(j, g.rdimy, g.sdimy), Weights(g.reduceMethod, g.sdimx, g.rdimx), Row(g, j))
  }

  ghost function Stakes(g: Gen): (t: seq<real>)
    requires Shape(g)
    ensures |t| == g.rdimy && forall j :: 0 <= j < |t| ==> t[j] == Stake(g, j)
  {
    seq(g.rdimy, j requires 0 <= j < g.rdimy => Stake(g, j))
  }

  lemma {:induction false} StakeIsShare(g: Gen, reds: seq<seq<real>>, j: nat, w: seq<real>)
    requires Good(g, reds) && |reds| == g.sdimy && j < g.rdimy && w == Weights(g.reduceMethod, g.sdimx, g.rdimx)
    ensures Stake(g, j) == RowShare(reds, g.rdimy, w, j)
  {
    assert Row(g, j) == FinalRow(reds, g.rdimy, g.rdimx, j) by { GoodIsComplete(g, reds, j); }
    RowShareIs(reds, g.rdimy, w, j, Row(g, j));
  }

  lemma {:induction false} StakesAddUp(g: Gen, reds: seq<seq<real>>, w: seq<real>)
    requires Good(g, reds) && |reds| == g.sdimy && g.rdimy > 0 && w == Weights(g.reduceMethod, g.sdimx, g.rdimx)
    ensures Sum(Stakes(g)) == Sum(Dots(w, reds))
  {
    forall j | 0 <= j < g.rdimy ensures Stakes(g)[j] == RowShare(reds, g.rdimy, w, j) {
      StakeIsShare(g, reds, j, w);
    }
    SharesAddUp(reds, g.rdimy, w, Stakes(g));
  }

  /** After as many calls as the source has rows, the numbers in the buffer add up to the source: nothing
      is lost between the first call and the last. */
  lemma {:induction false} TotalIsKept(g: Gen, rows: seq<seq<real>>)
    requires g.reduceMethod == Average || g.reduceMethod == Total
    requires Shape(g) && |rows| == g.sdimy && Wide(rows, g.sdimx)
    requires Good(g, ReducedRows(g.reduceMethod, rows, g.sdimx, g.rdimx))
    ensures Sum(Stakes(g)) == Sum(RowSums(rows))
  {
    if g.rdimy > 0 {
      StakesAddUp(g, ReducedRows(g.reduceMethod, rows, g.sdimx, g.rdimx), Weights(g.reduceMethod, g.sdimx, g.rdimx));
      DotsAreSums(g.reduceMethod, rows, g.sdimx, g.rdimx);
    }
  }

  lemma {:induction false} ReducedRowsSnoc(m: Reduction, rows: seq<seq<real>>, row: seq<real>, sdimx: nat, rdimx: nat)
    requires Wide(rows, sdimx) && |row| == sdimx && rdimx <= sdimx && (rdimx == 0 ==> sdimx == 0)
    ensures Wide(rows + [row], sdimx)
    ensures ReducedRows(m, rows + [row], sdimx, rdimx) ==
      ReducedRows(m, rows, sdimx, rdimx) + [ReducedRow(m, row, rdimx)]
  {
    assert forall i :: 0 <= i < |rows| ==> (rows + [row])[i] == rows[i];
  }

  /* ---------- the generator ---------- */

  class ReducedArrayGen {
    const rdata: array<real>
    const ftemp: array<real>
    const itemp: array<int>
    var rdimx: nat
    var rdimy: nat
    var rdataMax: real
    var rdataMin: real
    var sdimx: nat
    var sdimy: nat
    var scury: nat
    var lastRy: nat
    var lastRyCount: nat
    var nvalidRows: nat
    var reduceMethod: Reduction
    ghost var rows: seq<seq<real>>  // the source rows received so far

    constructor (reduceMethod: Reduction)
      ensures Buffers() && this.reduceMethod == reduceMethod && fresh(rdata) && fresh(ftemp) && fresh(itemp)
    {
      rdata, ftemp, itemp := new real[MAX_DATA](_ => 0.0), new real[MAX_DIMX](_ => 0.0), new int[MAX_DIMX](_ => 0);
      this.reduceMethod := reduceMethod;
    }

    ghost predicate Buffers() {
      rdata.Length == MAX_DATA && ftemp.Length == MAX_DIMX && itemp.Length == MAX_DIMX && rdata != ftemp
    }

    ghost function Value(): Gen
      reads this, rdata
    {
      Gen(sdimx, sdimy, rdimx, rdimy, reduceMethod, rdata[..], lastRy, lastRyCount, nvalidRows, rdataMax, rdataMin)
    }

    ghost predicate Valid()
      reads this, rdata
    {
      Buffers() && Shape(Value()) && scury == |rows| && Wide(rows, sdimx) &&
      Good(Value(), ReducedRows(reduceMethod, rows, sdimx, rdimx))
    }

    /** init_data(). The code then halves the dimensions while their product is over MAX_DATA; with these
        caps it never is (CapsFit). */
    method InitData(sx: nat, sy: nat)
      requires Buffers()
      modifies this
      ensures Valid() && rows == [] && sdimx == sx && sdimy == sy && reduceMethod == old(reduceMethod)
      ensures rdimx == (if sx > 256 then 256 else sx) && rdimy == if sy > 128 then 128 else sy
      ensures rdataMax == 0.0 && rdataMin == 100000000000000000000.0
    {
      SetDimensions(sx, sy);
      nvalidRows, scury, lastRy, lastRyCount := 0, 0, 0, 0;
      rdataMax, rdataMin := 0.0, MIN_START;
      rows := [];
      EmptyIsGood(Value());
    }

    method SetDimensions(sx: nat, sy: nat)
      requires Buffers()
      modifies `sdimx, `sdimy, `rdimx, `rdimy
      ensures sdimx == sx && sdimy == sy && Shape(Value())
    {
      sdimx, sdimy := sx, sy;
      rdimx, rdimy := sx, sy;
      if rdimx > 256 { rdimx := 256; }
      if rdimy > 128 { rdimy := 128; }
    }

    method UpdateMax(row: nat)
      requires Buffers() && Shape(Value()) && row < rdimy
      modifies this`rdataMax, this`rdataMin
      ensures Value() == old(Value()).(rdataMax := Top(old(rdataMax), Row(old(Value()), row)),
                                       rdataMin := Bottom(old(rdataMin), Row(old(Value()), row)))
    {
      RowFits(row, rdimx, rdimy);
      ghost var r := Row(Value(), row);
      var off := Rrow(row, rdimx);
      for i := 0 to rdimx
        invariant rdataMax == Top(old(rdataMax), r[..i]) && rdataMin == Bottom(old(rdataMin), r[..i])
      {
        assert r[..i + 1][..i] == r[..i] && r[i] == rdata[off + i];
        if rdata[off + i] > rdataMax { rdataMax := rdata[off + i]; }
        if rdata[off + i] < rdataMin { rdataMin := rdata[off + i]; }
      }
      assert r[..rdimx] == r;
    }

    method DivideOut(row: nat)
      requires Buffers() && Shape(Value()) && row < rdimy
      modifies rdata
      ensures Value() == Put(old(Value()), row, Divided(Row(old(Value()), row), lastRyCount))
    {
      RowFits(row, rdimx, rdimy);
      DivideRow(rdata, Rrow(row, rdimx), rdimx, lastRyCount);
    }

    /** The row is divided by the number of source rows in it, counted, and taken into the extremes. */
    method FinishRow(row: nat)
      requires Buffers() && Shape(Value()) && row < rdimy
      modifies this`rdataMax, this`rdataMin, this`nvalidRows, rdata
      ensures Value() == Finish(Put(old(Value()), row, Divided(Row(old(Value()), row), lastRyCount)), row)
    {
      DivideOut(row);
      UpdateMax(row);
      nvalidRows := nvalidRows + 1;
    }

    method ZeroRow(row: nat)
      requires Buffers() && Shape(Value()) && row < rdimy
      modifies rdata
      ensures Value() == Put(old(Value()), row, Zeros(rdimx))
    {
      RowFits(row, rdimx, rdimy);
      ClearRow(rdata, Rrow(row, rdimx), rdimx);
    }

    /** A source row is reduced into a row of the result, or copied if it fits. */
    method StoreRow(inp: seq<real>, row: nat)
      requires Buffers() && Shape(Value()) && row < rdimy && |inp| == sdimx
      modifies rdata, itemp
      ensures Value() == Put(old(Value()), row, ReducedRow(reduceMethod, inp, rdimx))
    {
      RowFits(row, rdimx, rdimy);
      if rdimx == sdimx {
        CopyRow(rdata, Rrow(row, rdimx), inp);
      } else {
        ReduceSourceRow(reduceMethod, inp, rdata, Rrow(row, rdimx), itemp, rdimx);
      }
    }

    /** A reduced row is added to the current row of the result. */
    method AddToCurrent(red: seq<real>)
      requires Buffers() && Shape(Value()) && lastRy < rdimy && |red| == rdimx
      modifies rdata
      ensures Value() == Put(old(Value()), lastRy, Plus(Row(old(Value()), lastRy), red))
    {
      ghost var row := Row(Value(), lastRy);
      var off := Rrow(lastRy, rdimx);
      assert off + rdimx <= MAX_DATA by { RowFits(lastRy, rdimx, rdimy); }
      assert row == rdata[off..off + rdimx];
      AddToRow(rdata, off, rdimx, red);
      assert rdata[..] == Splice(old(rdata[..]), off, Plus(row, red));
    }

    /** A source row is reduced in the temporary buffer, unless it fits. */
    method Reduce(inp: seq<real>) returns (red: seq<real>)
      requires Buffers() && Shape(Value()) && |inp| == sdimx
      modifies ftemp, itemp
      ensures red == ReducedRow(reduceMethod, inp, rdimx)
    {
      if rdimx == sdimx {
        red := inp;
      } else {
        ReduceSourceRow(reduceMethod, inp, ftemp, 0, itemp, rdimx);
        red := ftemp[0..0 + rdimx];
      }
    }

    /** A source row is added to the current row. */
    method AddRow(inp: seq<real>)
      requires Buffers() && Shape(Value()) && lastRy < rdimy && |inp| == sdimx
      modifies this`lastRyCount, rdata, ftemp, itemp
      ensures Value() == Added(old(Value()), ReducedRow(reduceMethod, inp, rdimx))
    {
      var red := Reduce(inp);
      AddToCurrent(red);
      lastRyCount := lastRyCount + 1;
    }

    method EnterFirstRow()
      requires Buffers() && Good(Value(), []) && scury == 0 < sdimy && rdimy < sdimy
      modifies rdata
      ensures Entered(Value(), [])
    {
      assert 0 < rdimy by { BinInRange(0, rdimy, sdimy); }
      EnterFirst(Value());
      ZeroRow(0);
    }

    /** The previous row is finished, and row ry begins. */
    method EnterNextRow(ry: nat, ghost reds: seq<seq<real>>)
      requires Buffers() && Good(Value(), reds) && 0 < |reds| < sdimy && rdimy < sdimy
      requires ry == Bin(|reds|, rdimy, sdimy) > lastRy
      modifies this`rdataMax, this`rdataMin, this`nvalidRows, this`lastRy, this`lastRyCount, rdata
      ensures Entered(Value(), reds)
    {
      ghost var g := Value();
      NextBin(g, reds);
      FinishRow(lastRy);
      ghost var f := Value();
      lastRy := ry;
      lastRyCount := 0;
      assert Value() == f.(lastRy := ry, lastRyCount := 0) && Shape(Value());
      ZeroRow(ry);
      EnterNext(g, reds, f);
    }

    /** The first row is cleared, and a new row of the result begins when the previous one is complete. */
    method EnterRow(ghost reds: seq<seq<real>>)
      requires Buffers() && Good(Value(), reds) && scury == |reds| < sdimy && rdimy < sdimy
      modifies this`rdataMax, this`rdataMin, this`nvalidRows, this`lastRy, this`lastRyCount, rdata
      ensures Entered(Value(), reds)
    {
      var ry := scury * rdimy / sdimy;
      if scury == 0 {
        EnterFirstRow();
      } else if ry > lastRy {
        EnterNextRow(ry, reds);
      } else {
        EnterSame(Value(), reds);
      }
    }

    method AddToEqual(inp: seq<real>, ghost reds: seq<seq<real>>)
      requires Buffers() && Good(Value(), reds) && scury == |reds| < sdimy && rdimy == sdimy && |inp| == sdimx
      modifies this`rdataMax, this`rdataMin, this`nvalidRows, rdata, itemp
      ensures Good(Value(), reds + [ReducedRow(reduceMethod, inp, rdimx)])
    {
      GoodEqual(Value(), reds, ReducedRow(reduceMethod, inp, rdimx));
      StoreRow(inp, scury);
      UpdateMax(scury);
      nvalidRows := nvalidRows + 1;
    }

    method AddEntered(inp: seq<real>, ghost reds: seq<seq<real>>)
      requires Buffers() && Entered(Value(), reds) && scury == |reds| && |inp| == sdimx
      modifies this`rdataMax, this`rdataMin, this`nvalidRows, this`lastRyCount, rdata, ftemp, itemp
      ensures Good(Value(), reds + [ReducedRow(reduceMethod, inp, rdimx)])
    {
      ghost var g, red := Value(), ReducedRow(reduceMethod, inp, rdimx);
      AddRow(inp);
      if scury == sdimy - 1 {
        LastIsGood(g, reds, red);
        FinishRow(lastRy);
      } else {
        AddedIsGood(g, reds, red);
      }
    }

    method AddReduced(inp: seq<real>, ghost reds: seq<seq<real>>)
      requires Buffers() && Good(Value(), reds) && scury == |reds| < sdimy && |inp| == sdimx
      modifies this`rdataMax, this`rdataMin, this`nvalidRows, this`lastRy, this`lastRyCount, rdata, ftemp, itemp
      ensures Good(Value(), reds + [ReducedRow(reduceMethod, inp, rdimx)])
    {
      if rdimy == sdimy {
        AddToEqual(inp, reds);
      } else {
        EnterRow(reds);
        AddEntered(inp, reds);
      }
    }

    /** add_source_row(); a call after the last row does nothing. */
    method AddSourceRow(inp: seq<real>)
      requires Valid() && |inp| == sdimx
      modifies this, rdata, ftemp, itemp
      ensures Valid() && rows == if old(scury) < sdimy then old(rows) + [inp] else old(rows)
      ensures sdimx == old(sdimx) && sdimy == old(sdimy) && reduceMethod == old(reduceMethod)
      ensures old(scury) >= sdimy ==> Value() == old(Value())
    {
      if scury >= sdimy {
        return;
      }
      ghost var reds := ReducedRows(reduceMethod, rows, sdimx, rdimx);
      ReducedRowsSnoc(reduceMethod, rows, inp, sdimx, rdimx);
      AddReduced(inp, reds);
      scury := scury + 1;
      rows := rows + [inp];
    }

    /** What the buffer holds once it is full adds up to all the source rows that came in. */
    lemma {:induction false} FullKeepsTotal()
      requires Valid() && scury == sdimy && (reduceMethod == Average || reduceMethod == Total)
      ensures Sum(Stakes(Value())) == Sum(RowSums(rows))
    {
      TotalIsKept(Value(), rows);
    }

    method Full() returns (full: bool)
      requires Valid()
      ensures full <==> scury == sdimy
    {
      full := nvalidRows == rdimy;
    }
  }
}
