/** What a cell of the finished array means when rows are reduced by MAX or MIN: vertically the code always
    averages (api/reduce_main.cpp:142-185). */
module FinalCells {
  import opened Blocks
  import opened ReducedGrid

  predicate AllEqual(s: seq<real>) {
    forall i :: 0 <= i < |s| ==> s[i] == s[0]
  }

  /** n times x, without multiplication. */
  function Times(n: nat, x: real): real {
    if n == 0 then 0.0 else Times(n - 1, x) + x
  }

  lemma {:induction false} TimesIs(n: nat, x: real)
    ensures Times(n, x) == n as real * x
  {
    if n > 0 {
      TimesIs(n - 1, x);
      assert n as real * x == (n - 1) as real * x + x;
    }
  }

  /** A sum reaches its upper bound only if every term does. */
  lemma {:induction false} SumAtMost(s: seq<real>, top: real)
    requires forall i :: 0 <= i < |s| ==> s[i] <= top
    ensures Sum(s) <= Times(|s|, top)
    ensures Sum(s) == Times(|s|, top) ==> forall i :: 0 <= i < |s| ==> s[i] == top
  {
    if s != [] { SumAtMost(s[..|s| - 1], top); }
  }

  /** The same for its lower bound. */
  lemma {:induction false} SumAtLeast(s: seq<real>, bottom: real)
    requires forall i :: 0 <= i < |s| ==> s[i] >= bottom
    ensures Sum(s) >= Times(|s|, bottom)
    ensures Sum(s) == Times(|s|, bottom) ==> forall i :: 0 <= i < |s| ==> s[i] == bottom
  {
    if s != [] { SumAtLeast(s[..|s| - 1], bottom); }
  }

  lemma {:induction false} MeanTimesCount(s: seq<real>, mean: real)
    requires s != [] && mean == Sum(s) / |s| as real
    ensures Sum(s) == Times(|s|, mean)
  {
    TimesIs(|s|, mean);
    DivideTimes(Sum(s), |s| as real);
  }

  /** The mean of equal terms is each of them. */
  lemma {:induction false} MeanOfEqual(s: seq<real>, mean: real)
    requires s != [] && mean == Sum(s) / |s| as real && AllEqual(s)
    ensures mean == s[0]
  {
    SumAtMost(s, s[0]);
    SumAtLeast(s, s[0]);
    TimesIs(|s|, s[0]);
    MeanTimesCount(s, mean);
    TimesIs(|s|, mean);
    var n := |s| as real;
    assert n * mean == n * s[0];
    SameFactor(n, mean, s[0]);
  }

  lemma {:induction false} SameFactor(n: real, x: real, y: real)
    requires n > 0.0 && n * x == n * y
    ensures x == y
  {
    assert n * (x - y) == 0.0;
  }

  /** Terms that do not exceed their mean are all equal to it. */
  lemma {:induction false} MeanOnTop(s: seq<real>, mean: real)
    requires s != [] && mean == Sum(s) / |s| as real
    requires (forall i :: 0 <= i < |s| ==> s[i] <= mean) || forall i :: 0 <= i < |s| ==> s[i] >= mean
    ensures forall i :: 0 <= i < |s| ==> s[i] == mean
  {
    MeanTimesCount(s, mean);
    if forall i :: 0 <= i < |s| ==> s[i] <= mean {
      SumAtMost(s, mean);
    } else {
      SumAtLeast(s, mean);
    }
  }

  /** A mean is the extreme of its terms if and only if they are all equal. */
  lemma {:induction false} MeanIsExtremeIff(s: seq<real>, mean: real)
    requires s != [] && mean == Sum(s) / |s| as real
    ensures IsMaximum(mean, s) <==> AllEqual(s)
    ensures IsMinimum(mean, s) <==> AllEqual(s)
  {
    if AllEqual(s) {
      MeanOfEqual(s, mean);
      assert s[0] in s;
    }
    if IsMaximum(mean, s) {
      forall i | 0 <= i < |s| ensures s[i] <= mean { assert s[i] in s; }
      MeanOnTop(s, mean);
    }
    if IsMinimum(mean, s) {
      forall i | 0 <= i < |s| ensures s[i] >= mean { assert s[i] in s; }
      MeanOnTop(s, mean);
    }
  }

  /** Whatever the method, a cell of the finished array is the extreme of the reduced source rows above it
      if and only if these are equal there. */
  lemma {:induction false} FinalCellIff(reds: seq<seq<real>>, rdimy: nat, w: nat, j: nat, x: nat)
    requires 0 < rdimy <= |reds| && j < rdimy && x < w && forall i :: 0 <= i < |reds| ==> |reds[i]| == w
    ensures var cell, column := FinalRow(reds, rdimy, w, j)[x], Column(Block(reds, j, rdimy), x);
      (IsMaximum(cell, column) <==> AllEqual(column)) && (IsMinimum(cell, column) <==> AllEqual(column))
  {
    MeanIsExtremeIff(Column(Block(reds, j, rdimy), x), FinalRow(reds, rdimy, w, j)[x]);
  }

  /* ---------- both directions ---------- */

  /** Each block reduced to a cell. */
  function Cells(m: Reduction, blocks: seq<seq<real>>): (c: seq<real>)
    ensures |c| == |blocks| && forall i :: 0 <= i < |c| ==> c[i] == Cell(m, blocks[i])
  {
    seq(|blocks|, i requires 0 <= i < |blocks| => Cell(m, blocks[i]))
  }

  ghost predicate NoneEmpty(blocks: seq<seq<real>>) {
    blocks != [] && forall i :: 0 <= i < |blocks| ==> blocks[i] != []
  }

  ghost predicate IsTop(x: real, blocks: seq<seq<real>>) {
    InSome(blocks, x) && forall i :: 0 <= i < |blocks| ==> AtMost(blocks[i], x)
  }

  ghost predicate IsBottom(x: real, blocks: seq<seq<real>>) {
    InSome(blocks, x) && forall i :: 0 <= i < |blocks| ==> AtLeast(blocks[i], x)
  }

  ghost predicate AtMost(block: seq<real>, x: real) {
    forall y :: y in block ==> y <= x
  }

  ghost predicate AtLeast(block: seq<real>, x: real) {
    forall y :: y in block ==> y >= x
  }

  /** A block whose entries do not exceed x, x not below 0, has a cell that does not. */
  lemma {:induction false} CellAtMost(block: seq<real>, x: real)
    requires block != [] && x >= 0.0
    ensures Cell(Largest, block) <= x <==> AtMost(block, x)
  {
    CellMeans(Largest, block);
  }

  lemma {:induction false} CellAtLeast(block: seq<real>, x: real)
    requires block != [] && x <= 0.0
    ensures Cell(Smallest, block) >= x <==> AtLeast(block, x)
  {
    CellMeans(Smallest, block);
  }

  lemma {:induction false} MeanSign(blocks: seq<seq<real>>, m: Reduction, mean: real)
    requires NoneEmpty(blocks) && mean == Sum(Cells(m, blocks)) / |blocks| as real
    ensures m == Largest ==> mean >= 0.0
    ensures m == Smallest ==> mean <= 0.0
  {
    var c := Cells(m, blocks);
    forall i | 0 <= i < |c| ensures (m == Largest ==> c[i] >= 0.0) && (m == Smallest ==> c[i] <= 0.0) {
      CellMeans(m, blocks[i]);
    }
    TimesIs(|c|, 0.0);
    if m == Largest { SumAtLeast(c, 0.0); }
    if m == Smallest { SumAtMost(c, 0.0); }
  }

  /** The mean of the cells of some blocks reduced by MAX is the largest of all their entries if and only if
      the cells are equal and some entry is not below 0. */
  lemma {:induction false} TopIff(blocks: seq<seq<real>>, mean: real)
    requires NoneEmpty(blocks) && mean == Sum(Cells(Largest, blocks)) / |blocks| as real
    ensures IsTop(mean, blocks) <==> AllEqual(Cells(Largest, blocks)) && SomeAtLeast(blocks, 0.0)
  {
    var c := Cells(Largest, blocks);
    MeanSign(blocks, Largest, mean);
    if IsTop(mean, blocks) {
      forall i | 0 <= i < |c| ensures c[i] <= mean { CellAtMost(blocks[i], mean); }
      MeanOnTop(c, mean);
      var r :| r in blocks && mean in r;
      assert HasAtLeast(r, 0.0);
    }
    if AllEqual(c) && SomeAtLeast(blocks, 0.0) {
      MeanOfEqual(c, mean);
      forall i | 0 <= i < |c| ensures AtMost(blocks[i], mean) { CellAtMost(blocks[i], mean); }
      var k :| 0 <= k < |blocks| && HasAtLeast(blocks[k], 0.0);
      ExtremeIff(blocks[k]);
      assert c[k] == mean && mean in blocks[k];
    }
  }

  /** The same for MIN. */
  lemma {:induction false} BottomIff(blocks: seq<seq<real>>, mean: real)
    requires NoneEmpty(blocks) && mean == Sum(Cells(Smallest, blocks)) / |blocks| as real
    ensures IsBottom(mean, blocks) <==> AllEqual(Cells(Smallest, blocks)) && SomeAtMost(blocks, 0.0)
  {
    var c := Cells(Smallest, blocks);
    MeanSign(blocks, Smallest, mean);
    if IsBottom(mean, blocks) {
      forall i | 0 <= i < |c| ensures c[i] >= mean { CellAtLeast(blocks[i], mean); }
      MeanOnTop(c, mean);
      var r :| r in blocks && mean in r;
      assert HasAtMost(r, 0.0);
    }
    if AllEqual(c) && SomeAtMost(blocks, 0.0) {
      MeanOfEqual(c, mean);
      forall i | 0 <= i < |c| ensures AtLeast(blocks[i], mean) { CellAtLeast(blocks[i], mean); }
      var k :| 0 <= k < |blocks| && HasAtMost(blocks[k], 0.0);
      ExtremeIff(blocks[k]);
      assert c[k] == mean && mean in blocks[k];
    }
  }

  /** The entries of the source array that go into a cell, row by row. */
  function Window(rows: seq<seq<real>>, sdimx: nat, rdimx: nat, rdimy: nat, j: nat, x: nat): (b: seq<seq<real>>)
    requires 0 < rdimx <= sdimx && 0 < rdimy <= |rows| && j < rdimy && x < rdimx
    requires forall i :: 0 <= i < |rows| ==> |rows[i]| == sdimx
    ensures |b| == Count(j, rdimy, |rows|)
  {
    BlocksTile(j, rdimy, |rows|);
    var lo := Lo(j, rdimy, |rows|);
    seq(Count(j, rdimy, |rows|), i requires 0 <= i < Count(j, rdimy, |rows|) => Block(rows[lo + i], x, rdimx))
  }

  lemma {:induction false} BlockAt<T>(s: seq<T>, j: nat, rdim: nat, i: nat)
    requires 0 < rdim <= |s| && j < rdim && i < Count(j, rdim, |s|)
    ensures Lo(j, rdim, |s|) + i < |s| && Block(s, j, rdim)[i] == s[Lo(j, rdim, |s|) + i]
  {
    BlocksTile(j, rdim, |s|);
  }

  lemma {:induction false} WindowCell(m: Reduction, rows: seq<seq<real>>, sdimx: nat, rdimx: nat, rdimy: nat, j: nat,
                                      x: nat, i: nat, window: seq<seq<real>>, reds: seq<seq<real>>)
    requires 0 < rdimx < sdimx && 0 < rdimy <= |rows| && j < rdimy && x < rdimx && Wide(rows, sdimx)
    requires window == Window(rows, sdimx, rdimx, rdimy, j, x) && i < |window|
    requires reds == ReducedRows(m, rows, sdimx, rdimx)
    ensures window[i] != [] && Block(reds, j, rdimy)[i][x] == Cell(m, window[i])
  {
    var k := Lo(j, rdimy, |rows|) + i;
    BlockAt(rows, j, rdimy, i);
    BlockAt(reds, j, rdimy, i);
    assert window[i] == Block(rows[k], x, rdimx);
    assert reds[k] == ReducedRow(m, rows[k], rdimx);
  }

  lemma {:induction false} WindowCells(m: Reduction, rows: seq<seq<real>>, sdimx: nat, rdimx: nat, rdimy: nat, j: nat,
                                       x: nat, window: seq<seq<real>>, reds: seq<seq<real>>)
    requires 0 < rdimx < sdimx && 0 < rdimy <= |rows| && j < rdimy && x < rdimx && Wide(rows, sdimx)
    requires window == Window(rows, sdimx, rdimx, rdimy, j, x) && reds == ReducedRows(m, rows, sdimx, rdimx)
    ensures NoneEmpty(window) && Column(Block(reds, j, rdimy), x) == Cells(m, window)
  {
    var column := Column(Block(reds, j, rdimy), x);
    forall i | 0 <= i < |window| ensures window[i] != [] && column[i] == Cell(m, window[i]) {
      WindowCell(m, rows, sdimx, rdimx, rdimy, j, x, i, window, reds);
    }
  }

  /** When a finished cell is the extreme of all the source entries that went into it: if and only if the
      rows agree on it, and some entry is on the right side of 0. */
  lemma {:induction false} FinalExtremeIff(m: Reduction, rows: seq<seq<real>>, sdimx: nat, rdimx: nat, rdimy: nat,
                                           j: nat, x: nat)
    requires 0 < rdimx < sdimx && 0 < rdimy <= |rows| && j < rdimy && x < rdimx && Wide(rows, sdimx)
    ensures var cell := FinalRow(ReducedRows(m, rows, sdimx, rdimx), rdimy, rdimx, j)[x];
      var window := Window(rows, sdimx, rdimx, rdimy, j, x);
      (m == Largest ==> (IsTop(cell, window) <==> AllEqual(Cells(m, window)) && SomeAtLeast(window, 0.0))) &&
      (m == Smallest ==> (IsBottom(cell, window) <==> AllEqual(Cells(m, window)) && SomeAtMost(window, 0.0)))
  {
    var cell := FinalRow(ReducedRows(m, rows, sdimx, rdimx), rdimy, rdimx, j)[x];
    var window := Window(rows, sdimx, rdimx, rdimy, j, x);
    WindowCells(m, rows, sdimx, rdimx, rdimy, j, x, window, ReducedRows(m, rows, sdimx, rdimx));
    if m == Largest {
      TopIff(window, cell);
    } else if m == Smallest {
      BottomIff(window, cell);
    }
  }

  /** Two rows whose maxima are 1 and 3: their cell by MAX is 2, which is no entry at all. */
  lemma {:induction false} SomeMaximumIsAveraged()
    ensures var blocks := [[1.0], [3.0]];
      Sum(Cells(Largest, blocks)) / 2.0 == 2.0 && IsTop(3.0, blocks) && !InSome(blocks, 2.0)
  {
    var blocks := [[1.0], [3.0]];
    var c := Cells(Largest, blocks);
    CellMeans(Largest, [1.0]);
    CellMeans(Largest, [3.0]);
    assert c == [1.0, 3.0] by {
      assert 1.0 in [1.0] && 3.0 in [3.0];
    }
    assert c[..1] == [1.0] && [1.0][..0] == [];
    assert Sum([1.0]) == 1.0 && Sum(c) == 4.0;
    assert [3.0] in blocks && 3.0 in [3.0];
  }
}
