/** What the reducer of api/reduce_main.cpp makes of a whole source array: the definition over blocks of
    rows and columns that its row-by-row code has to agree with, and what that definition conserves. */
module ReducedGrid {
  import opened Blocks

  /** REDUCE_METHOD_AVG, _SUM, _MAX and _MIN; the method applies within a row. */
  datatype Reduction = Average | Total | Largest | Smallest

  function Max(a: real, b: real): real { if a < b then b else a }

  function Min(a: real, b: real): real { if b < a then b else a }

  /** One more entry x into the accumulated value a. */
  function Accumulate(m: Reduction, a: real, x: real): real {
    match m
    case Average => a + x
    case Total => a + x
    case Largest => Max(a, x)
    case Smallest => Min(a, x)
  }

  /** The value accumulated over some entries of a row: MIN and MAX start from 0. */
  function Fold(m: Reduction, s: seq<real>): real {
    if s == [] then 0.0 else Accumulate(m, Fold(m, s[..|s| - 1]), s[|s| - 1])
  }

  lemma {:induction false} FoldSnoc(m: Reduction, s: seq<real>, x: real)
    ensures Fold(m, s + [x]) == Accumulate(m, Fold(m, s), x)
  {
    assert (s + [x])[..|s|] == s;
  }

  function Cell(m: Reduction, block: seq<real>): real {
    if m == Average && |block| > 1 then Fold(m, block) / |block| as real else Fold(m, block)
  }

  /** What the cell of a block means: its mean or sum; for MIN and MAX the extreme of the entries and
      0, from which the code starts. */
  lemma {:induction false} CellMeans(m: Reduction, block: seq<real>)
    requires block != []
    ensures m == Average ==> Cell(m, block) * |block| as real == Sum(block)
    ensures m == Total ==> Cell(m, block) == Sum(block)
    ensures m == Largest ==> Cell(m, block) >= 0.0 && (forall x :: x in block ==> x <= Cell(m, block)) &&
                             (Cell(m, block) == 0.0 || Cell(m, block) in block)
    ensures m == Smallest ==> Cell(m, block) <= 0.0 && (forall x :: x in block ==> x >= Cell(m, block)) &&
                              (Cell(m, block) == 0.0 || Cell(m, block) in block)
  {
    FoldIsSum(m, block);
    FoldIsExtreme(m, block);
  }

  predicate HasAtLeast(s: seq<real>, y: real) {
    exists x :: x in s && x >= y
  }

  predicate HasAtMost(s: seq<real>, y: real) {
    exists x :: x in s && x <= y
  }

  predicate IsMaximum(x: real, s: seq<real>) {
    x in s && forall y :: y in s ==> y <= x
  }

  predicate IsMinimum(x: real, s: seq<real>) {
    x in s && forall y :: y in s ==> y >= x
  }

  /** When a cell reduced by MAX or MIN is the extreme of its block: if and only if some entry is on the
      right side of 0. */
  lemma {:induction false} ExtremeIff(block: seq<real>)
    requires block != []
    ensures IsMaximum(Cell(Largest, block), block) <==> HasAtLeast(block, 0.0)
    ensures IsMinimum(Cell(Smallest, block), block) <==> HasAtMost(block, 0.0)
  {
    CellMeans(Largest, block);
    CellMeans(Smallest, block);
  }

  /** A block below 0: its maximum is -1, its cell is 0. */
  lemma {:induction false} SomeMaximumIsMissed()
    ensures var block := [-2.0, -1.0]; IsMaximum(-1.0, block) && Cell(Largest, block) == 0.0
  {
    ExtremeIff([-2.0, -1.0]);
    CellMeans(Largest, [-2.0, -1.0]);
  }

  /** A block above 0: its minimum is 1, its cell is 0. */
  lemma {:induction false} SomeMinimumIsMissed()
    ensures var block := [2.0, 1.0]; IsMinimum(1.0, block) && Cell(Smallest, block) == 0.0
  {
    ExtremeIff([2.0, 1.0]);
    CellMeans(Smallest, [2.0, 1.0]);
  }

  lemma {:induction false} FoldIsSum(m: Reduction, s: seq<real>)
    ensures m == Average || m == Total ==> Fold(m, s) == Sum(s)
  {
    if s != [] { FoldIsSum(m, s[..|s| - 1]); }
  }

  lemma {:induction false} FoldIsExtreme(m: Reduction, s: seq<real>)
    ensures m == Largest ==>
      Fold(m, s) >= 0.0 && (forall x :: x in s ==> x <= Fold(m, s)) && (Fold(m, s) == 0.0 || Fold(m, s) in s)
    ensures m == Smallest ==>
      Fold(m, s) <= 0.0 && (forall x :: x in s ==> x >= Fold(m, s)) && (Fold(m, s) == 0.0 || Fold(m, s) in s)
  {
    if s != [] {
      var n := |s| - 1;
      FoldIsExtreme(m, s[..n]);
      assert s == s[..n] + [s[n]];
    }
  }

  /* ---------- rows ---------- */

  function Block<T>(s: seq<T>, j: nat, rdim: nat): (b: seq<T>)
    requires 0 < rdim <= |s| && j < rdim
    ensures |b| == Count(j, rdim, |s|) && forall i :: 0 <= i < |b| ==> b[i] in s
  {
    BlocksTile(j, rdim, |s|);
    s[Lo(j, rdim, |s|)..Lo(j + 1, rdim, |s|)]
  }

  /** A source row reduced to rdimx cells; a row that fits is taken as it is, whatever the method. */
  function ReducedRow(m: Reduction, row: seq<real>, rdimx: nat): (r: seq<real>)
    requires rdimx <= |row| && (rdimx == 0 ==> row == [])
    ensures |r| == rdimx
  {
    if |row| == rdimx then row else seq(rdimx, j requires 0 <= j < rdimx => Cell(m, Block(row, j, rdimx)))
  }

  lemma {:induction false} ReducedCellIs(m: Reduction, row: seq<real>, rdimx: nat, x: nat) returns (b: seq<real>)
    requires 0 < rdimx < |row| && x < rdimx
    ensures b == Block(row, x, rdimx) && ReducedRow(m, row, rdimx)[x] == Cell(m, b)
  {
    b := Block(row, x, rdimx);
  }

  /** The entries of a block by their places in the row. */
  lemma {:induction false} BlockAt(row: seq<real>, rdimx: nat, x: nat, lo: nat, hi: nat, b: seq<real>, k: nat)
    requires 0 < rdimx <= |row| && x < rdimx && lo == Lo(x, rdimx, |row|) && hi == Lo(x + 1, rdimx, |row|)
    requires b == Block(row, x, rdimx) && k < |b|
    ensures lo + k < hi <= |row| && b[k] == row[lo + k]
  {
    BlocksTile(x, rdimx, |row|);
  }

  lemma {:induction false} BlockLength(row: seq<real>, rdimx: nat, x: nat, lo: nat, hi: nat, b: seq<real>)
    requires 0 < rdimx <= |row| && x < rdimx && lo == Lo(x, rdimx, |row|) && hi == Lo(x + 1, rdimx, |row|)
    requires b == Block(row, x, rdimx)
    ensures |b| == hi - lo
  {
  }

  lemma {:induction false} EntryBounds(m: Reduction, row: seq<real>, rdimx: nat, x: nat, lo: nat, hi: nat, i: nat,
                                       c: real)
    requires 0 < rdimx < |row| && x < rdimx && lo == Lo(x, rdimx, |row|) && hi == Lo(x + 1, rdimx, |row|)
    requires lo <= i < hi <= |row| && c == ReducedRow(m, row, rdimx)[x]
    ensures (m == Largest ==> c >= row[i] && c >= 0.0) && (m == Smallest ==> c <= row[i] && c <= 0.0)
  {
    var b := ReducedCellIs(m, row, rdimx, x);
    BlockLength(row, rdimx, x, lo, hi, b);
    BlockAt(row, rdimx, x, lo, hi, b, i - lo);
    CellBounds(m, b, b[i - lo], c);
  }

  lemma {:induction false} CellBounds(m: Reduction, block: seq<real>, y: real, c: real)
    requires y in block && c == Cell(m, block)
    ensures (m == Largest ==> c >= y && c >= 0.0) && (m == Smallest ==> c <= y && c <= 0.0)
  {
    CellMeans(m, block);
  }

  /** Entry i of a row goes to cell i * rdimx / |row|. A row that fits is kept entry by entry, whatever the
      method; otherwise a cell reduced by MAX or MIN bounds the entries that go to it ... */
  lemma {:induction false} ReducedRowBounds(m: Reduction, row: seq<real>, rdimx: nat, i: nat, x: nat)
    requires 0 < rdimx <= |row| && i < |row| && x == i * rdimx / |row|
    ensures x < rdimx
    ensures var c := ReducedRow(m, row, rdimx)[x];
      if |row| == rdimx then c == row[i]
      else (m == Largest ==> c >= row[i] && c >= 0.0) && (m == Smallest ==> c <= row[i] && c <= 0.0)
  {
    assert x == Bin(i, rdimx, |row|);
    assert x < rdimx by { BinInRange(i, rdimx, |row|); }
    assert Lo(x, rdimx, |row|) <= i < Lo(x + 1, rdimx, |row|) <= |row| by {
      BlockIs(i, x, rdimx, |row|);
      BlocksTile(x, rdimx, |row|);
    }
    if |row| == rdimx {
      LoOfEqual(x, rdimx);
      LoOfEqual(x + 1, rdimx);
    } else {
      EntryBounds(m, row, rdimx, x, Lo(x, rdimx, |row|), Lo(x + 1, rdimx, |row|), i, ReducedRow(m, row, rdimx)[x]);
    }
  }

  /** ... and is one of them, or 0. */
  lemma {:induction false} ReducedRowAttains(m: Reduction, row: seq<real>, rdimx: nat, x: nat) returns (i: nat)
    requires 0 < rdimx < |row| && x < rdimx && (m == Largest || m == Smallest)
    requires ReducedRow(m, row, rdimx)[x] != 0.0
    ensures i < |row| && i * rdimx / |row| == x && row[i] == ReducedRow(m, row, rdimx)[x]
  {
    var lo, hi := Lo(x, rdimx, |row|), Lo(x + 1, rdimx, |row|);
    var b := ReducedCellIs(m, row, rdimx, x);
    BlockLength(row, rdimx, x, lo, hi, b);
    var k := CellAttains(m, b, ReducedRow(m, row, rdimx)[x]);
    BlockAt(row, rdimx, x, lo, hi, b, k);
    i := lo + k;
    assert Bin(i, rdimx, |row|) == x by { BlockIs(i, x, rdimx, |row|); }
  }

  lemma {:induction false} CellAttains(m: Reduction, block: seq<real>, c: real) returns (k: nat)
    requires block != [] && (m == Largest || m == Smallest) && c == Cell(m, block) && c != 0.0
    ensures k < |block| && block[k] == c
  {
    CellMeans(m, block);
    k :| 0 <= k < |block| && block[k] == c;
  }

  ghost predicate Wide(reds: seq<seq<real>>, w: nat) {
    forall i :: 0 <= i < |reds| ==> |reds[i]| == w
  }

  lemma {:induction false} BlockIsWide(reds: seq<seq<real>>, j: nat, rdim: nat, w: nat)
    requires 0 < rdim <= |reds| && j < rdim && Wide(reds, w)
    ensures Wide(Block(reds, j, rdim), w)
  {
  }

  function ReducedRows(m: Reduction, rows: seq<seq<real>>, sdimx: nat, rdimx: nat): (reds: seq<seq<real>>)
    requires forall i :: 0 <= i < |rows| ==> |rows[i]| == sdimx
    requires rdimx <= sdimx && (rdimx == 0 ==> sdimx == 0)
    ensures |reds| == |rows| && forall i :: 0 <= i < |reds| ==> |reds[i]| == rdimx
  {
    seq(|rows|, i requires 0 <= i < |rows| => ReducedRow(m, rows[i], rdimx))
  }

  /* ---------- columns ---------- */

  function Column(rows: seq<seq<real>>, x: nat): (c: seq<real>)
    requires forall i :: 0 <= i < |rows| ==> x < |rows[i]|
    ensures |c| == |rows| && forall i :: 0 <= i < |c| ==> c[i] == rows[i][x]
  {
    seq(|rows|, i requires 0 <= i < |rows| => rows[i][x])
  }

  function SumRow(rows: seq<seq<real>>, w: nat): (r: seq<real>)
    requires forall i :: 0 <= i < |rows| ==> |rows[i]| == w
    ensures |r| == w && forall x :: 0 <= x < w ==> r[x] == Sum(Column(rows, x))
  {
    seq(w, x requires 0 <= x < w => Sum(Column(rows, x)))
  }

  function MeanRow(rows: seq<seq<real>>, w: nat): (r: seq<real>)
    requires rows != [] && forall i :: 0 <= i < |rows| ==> |rows[i]| == w
    ensures |r| == w && forall x :: 0 <= x < w ==> r[x] == Sum(Column(rows, x)) / |rows| as real
  {
    seq(w, x requires 0 <= x < w => Sum(Column(rows, x)) / |rows| as real)
  }

  /** Row j of the reduced array: the mean of the reduced rows of block j. */
  function FinalRow(reds: seq<seq<real>>, rdimy: nat, w: nat, j: nat): (r: seq<real>)
    requires 0 < rdimy <= |reds| && j < rdimy
    requires forall i :: 0 <= i < |reds| ==> |reds[i]| == w
    ensures |r| == w
  {
    BlocksTile(j, rdimy, |reds|);
    MeanRow(Block(reds, j, rdimy), w)
  }

  lemma {:induction false} ColumnSnoc(rows: seq<seq<real>>, row: seq<real>, x: nat)
    requires x < |row| && forall i :: 0 <= i < |rows| ==> x < |rows[i]|
    ensures Column(rows + [row], x) == Column(rows, x) + [row[x]]
    ensures Sum(Column(rows + [row], x)) == Sum(Column(rows, x)) + row[x]
  {
    assert Column(rows + [row], x) == Column(rows, x) + [row[x]];
    SumSnoc(Column(rows, x), row[x]);
  }

  ghost function Plus(a: seq<real>, b: seq<real>): (c: seq<real>)
    requires |a| == |b|
    ensures |c| == |a|
  {
    seq(|a|, x requires 0 <= x < |a| => a[x] + b[x])
  }

  lemma {:induction false} SumRowSnoc(rows: seq<seq<real>>, row: seq<real>, w: nat)
    requires Wide(rows, w) && |row| == w
    ensures SumRow(rows + [row], w) == Plus(SumRow(rows, w), row)
  {
    forall x | 0 <= x < w ensures SumRow(rows + [row], w)[x] == Plus(SumRow(rows, w), row)[x] {
      ColumnSnoc(rows, row, x);
    }
  }

  /** With as many rows as the source, each block is one row and its mean is the row itself. */
  lemma {:induction false} FinalRowOfEqual(reds: seq<seq<real>>, w: nat, j: nat)
    requires j < |reds| && forall i :: 0 <= i < |reds| ==> |reds[i]| == w
    ensures FinalRow(reds, |reds|, w, j) == reds[j]
  {
    var n := |reds|;
    LoOfEqual(j, n);
    LoOfEqual(j + 1, n);
    assert Block(reds, j, n) == [] + [reds[j]];
    forall x | 0 <= x < w ensures FinalRow(reds, n, w, j)[x] == reds[j][x] {
      ColumnSnoc([], reds[j], x);
    }
  }

  lemma {:induction false} LoOfEqual(j: nat, n: nat)
    requires n > 0
    ensures Lo(j, n, n) == j
  {
    LoBounds(j, n, n);
    MulLess(j, Lo(j, n, n), n);
    MulLess(Lo(j, n, n), j + 1, n);
    assert (j + 1) * n == j * n + n;
  }

  /* ---------- the extremes ---------- */

  /** The maximum starts from 0 and the minimum from 1e20. */
  const MIN_START := 100000000000000000000.0

  function Top(a: real, row: seq<real>): real {
    if row == [] then a else
      var t := Top(a, row[..|row| - 1]);
      if row[|row| - 1] > t then row[|row| - 1] else t
  }

  function Bottom(a: real, row: seq<real>): real {
    if row == [] then a else
      var t := Bottom(a, row[..|row| - 1]);
      if row[|row| - 1] < t then row[|row| - 1] else t
  }

  function TopRows(rows: seq<seq<real>>): real {
    if rows == [] then 0.0 else Top(TopRows(rows[..|rows| - 1]), rows[|rows| - 1])
  }

  function BottomRows(rows: seq<seq<real>>): real {
    if rows == [] then MIN_START else Bottom(BottomRows(rows[..|rows| - 1]), rows[|rows| - 1])
  }

  lemma {:induction false} TopIsMax(a: real, row: seq<real>)
    ensures Top(a, row) >= a && (forall x :: x in row ==> x <= Top(a, row)) && (Top(a, row) == a || Top(a, row) in row)
    ensures Bottom(a, row) <= a && (forall x :: x in row ==>
      x >= Bottom(a, row)) && (Bottom(a, row) == a || Bottom(a, row) in row)
  {
    if row != [] {
      var n := |row| - 1;
      TopIsMax(a, row[..n]);
      assert row == row[..n] + [row[n]];
    }
  }

  ghost predicate InSome(rows: seq<seq<real>>, x: real) {
    exists r :: r in rows && x in r
  }

  /** rdata_max and rdata_min are the extremes of the finished cells together with their start values. */
  lemma {:induction false} Envelope(rows: seq<seq<real>>)
    ensures TopRows(rows) >= 0.0 && (forall r, x :: r in rows && x in r ==> x <= TopRows(rows))
    ensures TopRows(rows) == 0.0 || InSome(rows, TopRows(rows))
    ensures BottomRows(rows) <= MIN_START && (forall r, x :: r in rows && x in r ==> x >= BottomRows(rows))
    ensures BottomRows(rows) == MIN_START || InSome(rows, BottomRows(rows))
  {
    if rows != [] {
      var n := |rows| - 1;
      Envelope(rows[..n]);
      TopIsMax(TopRows(rows[..n]), rows[n]);
      TopIsMax(BottomRows(rows[..n]), rows[n]);
      assert rows == rows[..n] + [rows[n]];
      assert InSome(rows[..n], TopRows(rows[..n])) ==> InSome(rows, TopRows(rows[..n]));
      assert InSome(rows[..n], BottomRows(rows[..n])) ==> InSome(rows, BottomRows(rows[..n]));
      assert TopRows(rows) in rows[n] ==> InSome(rows, TopRows(rows));
      assert BottomRows(rows) in rows[n] ==> InSome(rows, BottomRows(rows));
    }
  }

  /* ---------- conservation ---------- */

  ghost predicate SomeAtLeast(rows: seq<seq<real>>, y: real) {
    exists r :: r in rows && HasAtLeast(r, y)
  }

  ghost predicate SomeAtMost(rows: seq<seq<real>>, y: real) {
    exists r :: r in rows && HasAtMost(r, y)
  }

  /** When rdata_max is the largest cell, and rdata_min the smallest: if and only if some cell is not
      beyond the start value. */
  lemma {:induction false} EnvelopeIff(rows: seq<seq<real>>)
    ensures InSome(rows, TopRows(rows)) <==> SomeAtLeast(rows, 0.0)
    ensures InSome(rows, BottomRows(rows)) <==> SomeAtMost(rows, MIN_START)
  {
    Envelope(rows);
    if SomeAtLeast(rows, 0.0) {
      var r :| r in rows && HasAtLeast(r, 0.0);
      var x :| x in r && x >= 0.0;
      assert InSome(rows, x);
    }
    if SomeAtMost(rows, MIN_START) {
      var r :| r in rows && HasAtMost(r, MIN_START);
      var x :| x in r && x <= MIN_START;
      assert InSome(rows, x);
    }
  }

  /** Data below 0: the largest cell is -1, rdata_max is 0. */
  lemma {:induction false} SomeTopIsMissed()
    ensures TopRows([[-1.0]]) == 0.0 && !InSome([[-1.0]], 0.0)
  {
    EnvelopeIff([[-1.0]]);
    Envelope([[-1.0]]);
  }

  function Products(w: seq<real>, row: seq<real>): (p: seq<real>)
    requires |w| == |row|
    ensures |p| == |w| && forall x :: 0 <= x < |p| ==> p[x] == w[x] * row[x]
  {
    seq(|w|, x requires 0 <= x < |w| => w[x] * row[x])
  }

  function Dot(w: seq<real>, row: seq<real>): real
    requires |w| == |row|
  {
    Sum(Products(w, row))
  }

  /** How much a cell stands for within its row: the columns of its block if the row was averaged, and
      itself if it was summed. */
  function Weights(m: Reduction, sdimx: nat, rdimx: nat): (w: seq<real>)
    requires rdimx <= sdimx && (rdimx == 0 ==> sdimx == 0)
    ensures |w| == rdimx
  {
    seq(rdimx, x requires 0 <= x < rdimx => if m == Average then Count(x, rdimx, sdimx) as real else 1.0)
  }

  lemma {:induction false} WeightAt(m: Reduction, row: seq<real>, rdimx: nat, x: nat)
    requires 0 < rdimx <= |row| && x < rdimx
    ensures Weights(m, |row|, rdimx)[x] == if m == Average then |Block(row, x, rdimx)| as real else 1.0
  {
  }

  lemma {:induction false} CellIs(m: Reduction, row: seq<real>, rdimx: nat, x: nat)
    requires 0 < rdimx <= |row| && x < rdimx && (m == Average || m == Total)
    ensures ReducedRow(m, row, rdimx)[x] == Cell(m, Block(row, x, rdimx))
  {
    if |row| == rdimx {
      LoOfEqual(x, rdimx);
      LoOfEqual(x + 1, rdimx);
      assert Block(row, x, rdimx) == [] + [row[x]];
      FoldSnoc(m, [], row[x]);
    }
  }

  lemma {:induction false} CellConserves(m: Reduction, row: seq<real>, rdimx: nat, x: nat, k: real, c: real)
    requires 0 < rdimx <= |row| && x < rdimx && (m == Average || m == Total)
    requires k == Weights(m, |row|, rdimx)[x] && c == ReducedRow(m, row, rdimx)[x]
    ensures k * c == Sum(Block(row, x, rdimx))
  {
    WeightAt(m, row, rdimx, x);
    CellIs(m, row, rdimx, x);
    CellTimes(m, Block(row, x, rdimx), k, c);
  }

  lemma {:induction false} CellTimes(m: Reduction, block: seq<real>, k: real, c: real)
    requires block != [] && (m == Average || m == Total)
    requires k == (if m == Average then |block| as real else 1.0) && c == Cell(m, block)
    ensures k * c == Sum(block)
  {
    CellMeans(m, block);
    if m == Average {
      assert k * c == c * k;
    }
  }

  /** Reducing a row keeps its sum: the weighted cells of an averaged or summed row add up to the
      entries of the row. */
  lemma {:induction false} RowConserves(m: Reduction, row: seq<real>, rdimx: nat)
    requires rdimx <= |row| && (rdimx == 0 ==> row == []) && (m == Average || m == Total)
    ensures Dot(Weights(m, |row|, rdimx), ReducedRow(m, row, rdimx)) == Sum(row)
  {
    if rdimx > 0 {
      var parts := Products(Weights(m, |row|, rdimx), ReducedRow(m, row, rdimx));
      forall x | 0 <= x < rdimx ensures parts[x] == Sum(Block(row, x, rdimx)) {
        ProductIsSum(m, row, rdimx, x, Weights(m, |row|, rdimx), ReducedRow(m, row, rdimx));
      }
      BlocksAddUp(row, rdimx, parts);
    }
  }

  lemma {:induction false} ProductIsSum(m: Reduction, row: seq<real>, rdimx: nat, x: nat, w: seq<real>, red: seq<real>)
    requires 0 < rdimx <= |row| && x < rdimx && (m == Average || m == Total)
    requires w == Weights(m, |row|, rdimx) && red == ReducedRow(m, row, rdimx)
    ensures Products(w, red)[x] == Sum(Block(row, x, rdimx))
  {
    var k, c := w[x], red[x];
    assert Products(w, red)[x] == k * c;
    CellConserves(m, row, rdimx, x, k, c);
  }

  lemma {:induction false} BlocksAddUp(row: seq<real>, rdimx: nat, parts: seq<real>)
    requires 0 < rdimx <= |row| && |parts| == rdimx
    requires forall x :: 0 <= x < rdimx ==> parts[x] == Sum(Block(row, x, rdimx))
    ensures Sum(parts) == Sum(row)
  {
    var cuts := Cuts(rdimx, |row|);
    CutsTile(rdimx, |row|);
    forall x | 0 <= x < rdimx ensures Piece(cuts, x, |row|) && parts[x] == PieceSum(cuts, row, x) {
      assert Piece(cuts, x, |row|);
    }
    SumOfBlocks(cuts, row, parts, rdimx);
    assert parts[..rdimx] == parts && row[..|row|] == row;
  }

  lemma {:induction false} SumPlus(a: seq<real>, b: seq<real>)
    requires |a| == |b|
    ensures Sum(Plus(a, b)) == Sum(a) + Sum(b)
  {
    if a != [] {
      var n := |a| - 1;
      SumPlus(a[..n], b[..n]);
      assert Plus(a, b)[..n] == Plus(a[..n], b[..n]);
    }
  }

  lemma {:induction false} DotPlus(w: seq<real>, a: seq<real>, b: seq<real>)
    requires |w| == |a| == |b|
    ensures Dot(w, Plus(a, b)) == Dot(w, a) + Dot(w, b)
  {
    forall x | 0 <= x < |w| ensures Products(w, Plus(a, b))[x] == Plus(Products(w, a), Products(w, b))[x] {
      assert w[x] * (a[x] + b[x]) == w[x] * a[x] + w[x] * b[x];
    }
    assert Products(w, Plus(a, b)) == Plus(Products(w, a), Products(w, b));
    SumPlus(Products(w, a), Products(w, b));
  }

  lemma {:induction false} SumScale(a: seq<real>, b: seq<real>, k: real)
    requires |a| == |b| && forall x :: 0 <= x < |a| ==> k * a[x] == b[x]
    ensures k * Sum(a) == Sum(b)
  {
    if a != [] {
      SumScale(a[..|a| - 1], b[..|a| - 1], k);
    }
  }

  lemma {:induction false} DotScale(w: seq<real>, a: seq<real>, b: seq<real>, k: real)
    requires |w| == |a| == |b| && forall x :: 0 <= x < |a| ==> a[x] * k == b[x]
    ensures k * Dot(w, a) == Dot(w, b)
  {
    forall x | 0 <= x < |a| ensures k * Products(w, a)[x] == Products(w, b)[x] {
      assert k * (w[x] * a[x]) == w[x] * (a[x] * k);
    }
    SumScale(Products(w, a), Products(w, b), k);
  }

  function Dots(w: seq<real>, rows: seq<seq<real>>): (d: seq<real>)
    requires forall i :: 0 <= i < |rows| ==> |rows[i]| == |w|
    ensures |d| == |rows|
  {
    seq(|rows|, i requires 0 <= i < |rows| => Dot(w, rows[i]))
  }

  lemma {:induction false} DotOfSum(w: seq<real>, rows: seq<seq<real>>)
    requires Wide(rows, |w|)
    ensures Dot(w, SumRow(rows, |w|)) == Sum(Dots(w, rows))
  {
    if rows == [] {
      SumScale(Products(w, SumRow(rows, |w|)), Products(w, SumRow(rows, |w|)), 0.0);
    } else {
      var n := |rows| - 1;
      DotOfSum(w, rows[..n]);
      assert rows == rows[..n] + [rows[n]];
      SumRowSnoc(rows[..n], rows[n], |w|);
      DotPlus(w, SumRow(rows[..n], |w|), rows[n]);
      assert Dots(w, rows) == Dots(w, rows[..n]) + [Dot(w, rows[n])];
      SumSnoc(Dots(w, rows[..n]), Dot(w, rows[n]));
    }
  }

  /** The weighted cells of a row that stands for n rows. */
  function Weighted(n: nat, w: seq<real>, row: seq<real>): real
    requires |w| == |row|
  {
    n as real * Dot(w, row)
  }

  /** The mean of some rows, weighted and times their number. */
  function MeanShare(block: seq<seq<real>>, w: seq<real>): real
    requires block != [] && forall i :: 0 <= i < |block| ==> |block[i]| == |w|
  {
    Weighted(|block|, w, MeanRow(block, |w|))
  }

  lemma {:induction false} DivideTimes(a: real, k: real)
    requires k != 0.0
    ensures (a / k) * k == a
  {
  }

  lemma {:induction false} MeanTimes(block: seq<seq<real>>, w: seq<real>, k: real)
    requires block != [] && Wide(block, |w|) && k == |block| as real
    ensures k * Dot(w, MeanRow(block, |w|)) == Dot(w, SumRow(block, |w|))
  {
    var mean, sum := MeanRow(block, |w|), SumRow(block, |w|);
    forall x | 0 <= x < |w| ensures mean[x] * k == sum[x] { DivideTimes(sum[x], k); }
    DotScale(w, mean, sum, k);
  }

  lemma {:induction false} MeanConserves(block: seq<seq<real>>, w: seq<real>)
    requires block != [] && Wide(block, |w|)
    ensures MeanShare(block, w) == Sum(Dots(w, block))
  {
    assert MeanShare(block, w) == Dot(w, SumRow(block, |w|)) by { MeanTimes(block, w, |block| as real); }
    DotOfSum(w, block);
  }

  /** A row of the result (FinalRow), weighted and times the number of source rows in it. */
  function RowShare(reds: seq<seq<real>>, rdimy: nat, w: seq<real>, j: nat): real
    requires 0 < rdimy <= |reds| && j < rdimy && forall i :: 0 <= i < |reds| ==> |reds[i]| == |w|
  {
    MeanShare(Block(reds, j, rdimy), w)
  }

  lemma {:induction false} RowShareIs(reds: seq<seq<real>>, rdimy: nat, w: seq<real>, j: nat, row: seq<real>)
    requires 0 < rdimy <= |reds| && j < rdimy && Wide(reds, |w|) && row == FinalRow(reds, rdimy, |w|, j)
    ensures RowShare(reds, rdimy, w, j) == Weighted(Count(j, rdimy, |reds|), w, row)
  {
  }

  lemma {:induction false} BlockOfDots(reds: seq<seq<real>>, rdimy: nat, w: seq<real>, j: nat)
    requires 0 < rdimy <= |reds| && j < rdimy && Wide(reds, |w|) && Wide(Block(reds, j, rdimy), |w|)
    ensures Dots(w, Block(reds, j, rdimy)) == Block(Dots(w, reds), j, rdimy)
  {
    var a, b := Dots(w, Block(reds, j, rdimy)), Block(Dots(w, reds), j, rdimy);
    BlocksTile(j, rdimy, |reds|);
    forall i | 0 <= i < |a| ensures a[i] == b[i] {
      assert Block(reds, j, rdimy)[i] == reds[Lo(j, rdimy, |reds|) + i];
      assert b[i] == Dots(w, reds)[Lo(j, rdimy, |reds|) + i];
    }
  }

  lemma {:induction false} RowShareConserves(reds: seq<seq<real>>, rdimy: nat, w: seq<real>, j: nat, share: real)
    requires 0 < rdimy <= |reds| && j < rdimy && Wide(reds, |w|) && share == RowShare(reds, rdimy, w, j)
    ensures share == Sum(Block(Dots(w, reds), j, rdimy))
  {
    BlockIsWide(reds, j, rdimy, |w|);
    MeanConserves(Block(reds, j, rdimy), w);
    BlockOfDots(reds, rdimy, w, j);
  }

  lemma {:induction false} SharesAddUp(reds: seq<seq<real>>, rdimy: nat, w: seq<real>, parts: seq<real>)
    requires 0 < rdimy <= |reds| && Wide(reds, |w|) && |parts| == rdimy
    requires forall j :: 0 <= j < rdimy ==> parts[j] == RowShare(reds, rdimy, w, j)
    ensures Sum(parts) == Sum(Dots(w, reds))
  {
    forall j | 0 <= j < rdimy ensures parts[j] == Sum(Block(Dots(w, reds), j, rdimy)) {
      RowShareConserves(reds, rdimy, w, j, parts[j]);
    }
    BlocksAddUp(Dots(w, reds), rdimy, parts);
  }

  /** The weighted cells of the whole result. */
  function Grid(reds: seq<seq<real>>, rdimy: nat, w: seq<real>): real
    requires 0 < rdimy <= |reds| && forall i :: 0 <= i < |reds| ==> |reds[i]| == |w|
  {
    Sum(seq(rdimy, j requires 0 <= j < rdimy => RowShare(reds, rdimy, w, j)))
  }

  lemma {:induction false} GridIsDots(reds: seq<seq<real>>, rdimy: nat, w: seq<real>)
    requires 0 < rdimy <= |reds| && Wide(reds, |w|)
    ensures Grid(reds, rdimy, w) == Sum(Dots(w, reds))
  {
    SharesAddUp(reds, rdimy, w, seq(rdimy, j requires 0 <= j < rdimy => RowShare(reds, rdimy, w, j)));
  }

  function RowSums(rows: seq<seq<real>>): (t: seq<real>)
    ensures |t| == |rows|
  {
    seq(|rows|, i requires 0 <= i < |rows| => Sum(rows[i]))
  }

  /** Nothing is lost: each cell of the result, weighted with the number of source rows in its row and,
      if rows were averaged, with the number of columns in its block, adds up to the sum of the whole
      source array. */
  lemma {:induction false} Conservation(m: Reduction, rows: seq<seq<real>>, sdimx: nat, rdimx: nat, rdimy: nat)
    requires m == Average || m == Total
    requires 0 < rdimy <= |rows| && Wide(rows, sdimx) && rdimx <= sdimx && (rdimx == 0 ==> sdimx == 0)
    ensures Grid(ReducedRows(m, rows, sdimx, rdimx), rdimy, Weights(m, sdimx, rdimx)) == Sum(RowSums(rows))
  {
    GridIsDots(ReducedRows(m, rows, sdimx, rdimx), rdimy, Weights(m, sdimx, rdimx));
    DotsAreSums(m, rows, sdimx, rdimx);
  }

  lemma {:induction false} DotsAreSums(m: Reduction, rows: seq<seq<real>>, sdimx: nat, rdimx: nat)
    requires (m == Average || m == Total) && Wide(rows, sdimx) && rdimx <= sdimx && (rdimx == 0 ==> sdimx == 0)
    ensures Dots(Weights(m, sdimx, rdimx), ReducedRows(m, rows, sdimx, rdimx)) == RowSums(rows)
  {
    var reds, w := ReducedRows(m, rows, sdimx, rdimx), Weights(m, sdimx, rdimx);
    forall i | 0 <= i < |rows| ensures Dots(w, reds)[i] == RowSums(rows)[i] { RowConserves(m, rows[i], rdimx); }
  }
}
