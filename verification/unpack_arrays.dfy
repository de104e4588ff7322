/** The array work of unpack_data.py: `readBinFile` (reshape and
    transpose of the raw words of one board), the row cut to 2600 words,
    and the channel fix-up of `read_channel_data` (scaling, in-place sign
    flip of bad channels, Fortran-order reshape of `chnDataAll`). */
module UnpackArrays {
  import opened Common
  import opened DaqSpec

  // readBinFile

  /** `np.fromfile(f).reshape((6*totFirings*numExpr, packSize)).transpose()`:
      `ValueError` unless the file holds exactly that many words; otherwise
      `packSize` rows with one column per pack, row `j` of column `r`
      being word `j` of pack `r`. */
  function ReadBinFile<T>(flat: seq<T>, packSize: nat, totFirings: nat, numExpr: nat): Result<seq<seq<T>>>
  {
    var packs: nat := 6 * totFirings * numExpr;
    if |flat| != packs * packSize then Err("ValueError")
    else Ok(seq(packSize, j requires 0 <= j < packSize =>
              seq(packs, r requires 0 <= r < packs => flat[PackWordIndex(r, j, packs, packSize)])))
  }

  /** Position of word `j` of pack `r` in the file. */
  function PackWordIndex(r: nat, j: nat, packs: nat, packSize: nat): (q: nat)
    requires r < packs && j < packSize
    ensures q < packs * packSize
  {
    RowMajorBound(r, j, packs, packSize);
    r * packSize + j
  }

  /** A matrix given as its rows, each of `cols` entries. */
  predicate IsMatrix<T>(m: seq<seq<T>>, cols: nat)
  {
    forall j :: 0 <= j < |m| ==> |m[j]| == cols
  }

  /** The entries of a matrix in column-major order, the order in which the
      C decoder reads a numpy array it is handed. */
  function ColumnMajor<T>(m: seq<seq<T>>, cols: nat): (flat: seq<T>)
    requires IsMatrix(m, cols)
    ensures |flat| == cols * |m|
  {
    if |m| == 0 then []
    else
      seq(cols * |m|, q requires 0 <= q < cols * |m| =>
        DivModBound(q, cols, |m|);
        m[q % |m|][q / |m|])
  }

  /** Column `r` of a matrix of `cols` columns, top to bottom. */
  function Col<T>(m: seq<seq<T>>, cols: nat, r: nat): (c: seq<T>)
    requires IsMatrix(m, cols) && r < cols
    ensures |c| == |m| && forall j :: 0 <= j < |m| ==> c[j] == m[j][r]
  {
    seq(|m|, j requires 0 <= j < |m| => m[j][r])
  }

  /** `readBinFile` succeeds exactly when the file holds a whole number of
      packs of the expected count, and then gives a `packSize`-row matrix
      with one column per pack, whose column `r` is the `r`-th run of
      `packSize` consecutive words of the file. */
  lemma ReadBinFileShape<T>(flat: seq<T>, packSize: nat, totFirings: nat, numExpr: nat)
    ensures var packs: nat := 6 * totFirings * numExpr;
      && (ReadBinFile(flat, packSize, totFirings, numExpr).Ok? <==> |flat| == packs * packSize)
      && (ReadBinFile(flat, packSize, totFirings, numExpr).Ok? ==>
            var m := ReadBinFile(flat, packSize, totFirings, numExpr).value;
            && |m| == packSize && IsMatrix(m, packs)
            && forall r :: 0 <= r < packs ==>
                 r * packSize + packSize <= |flat| && Col(m, packs, r) == flat[r * packSize..r * packSize + packSize])
  {
    var packs: nat := 6 * totFirings * numExpr;
    if ReadBinFile(flat, packSize, totFirings, numExpr).Ok? {
      var m := ReadBinFile(flat, packSize, totFirings, numExpr).value;
      forall r | 0 <= r < packs
        ensures r * packSize + packSize <= |flat| && Col(m, packs, r) == flat[r * packSize..r * packSize + packSize]
      {
        if packSize > 0 {
          RowMajorBound(r, 0, packs, packSize);
        }
        assert r * packSize <= packs * packSize by {
          assert r <= packs;
        }
      }
    }
  }

  /** Reading the transposed matrix back in column-major order gives the
      words of the file in their original order. */
  lemma ReadBinFileRoundTrip<T>(flat: seq<T>, packSize: nat, totFirings: nat, numExpr: nat)
    requires ReadBinFile(flat, packSize, totFirings, numExpr).Ok?
    ensures var m := ReadBinFile(flat, packSize, totFirings, numExpr).value;
      IsMatrix(m, 6 * totFirings * numExpr) && ColumnMajor(m, 6 * totFirings * numExpr) == flat
  {
    var packs: nat := 6 * totFirings * numExpr;
    var m := ReadBinFile(flat, packSize, totFirings, numExpr).value;
    if packSize > 0 {
      var cm := ColumnMajor(m, packs);
      forall q | 0 <= q < |flat|
        ensures cm[q] == flat[q]
      {
        DivModBound(q, packs, packSize);
      }
    }
  }

  /** `tempData[0:2600, :]`: the first 2600 rows, or all of them. */
  function KeepRows<T>(m: seq<seq<T>>, rows: nat): (r: seq<seq<T>>)
    ensures |r| == if |m| < rows then |m| else rows
    ensures forall j :: 0 <= j < |r| ==> r[j] == m[j]
  {
    if |m| < rows then m else m[..rows]
  }

  const KEPT_ROWS: nat := 2600

  /** Once cut to 2600 rows, the board matrix handed to the decoder holds,
      at column-major position `r * 2600 + w`, word `w` of pack `r` of the
      file: the decoder's word offset `counter * 2 * 1300 + w` is word `w`
      of pack `counter`. */
  lemma KeptRowsAreFileWords<T>(flat: seq<T>, packSize: nat, totFirings: nat, numExpr: nat, r: nat, w: nat)
    requires ReadBinFile(flat, packSize, totFirings, numExpr).Ok?
    requires KEPT_ROWS <= packSize && r < 6 * totFirings * numExpr && w < KEPT_ROWS
    ensures var packs := 6 * totFirings * numExpr;
      var kept := KeepRows(ReadBinFile(flat, packSize, totFirings, numExpr).value, KEPT_ROWS);
      && IsMatrix(kept, packs)
      && r * KEPT_ROWS + w < |ColumnMajor(kept, packs)|
      && ColumnMajor(kept, packs)[r * KEPT_ROWS + w] == flat[r * packSize + w]
  {
    var packs: nat := 6 * totFirings * numExpr;
    var m := ReadBinFile(flat, packSize, totFirings, numExpr).value;
    var kept := KeepRows(m, KEPT_ROWS);
    var q := r * KEPT_ROWS + w;
    RowMajorBound(r, w, packs, KEPT_ROWS);
    DivModBound(q, packs, KEPT_ROWS);
    RowMajorUnique(r, w, q / KEPT_ROWS, q % KEPT_ROWS, KEPT_ROWS);
    assert ColumnMajor(kept, packs)[q] == kept[w][r];
  }

  // The channel fix-up of read_channel_data.

  /** `-x` when `flip`, `x` otherwise. */
  function Signed(x: real, flip: bool): real
  {
    if flip then -x else x
  }

  /** `chnInd - 1` is a valid numpy index on an axis of length `n`
      (negative indices count from the end). */
  predicate ValidChannel(chnInd: int, n: nat)
  {
    -(n as int) <= chnInd - 1 < n
  }

  /** The column numpy addresses with index `chnInd - 1`. */
  function ColumnOf(chnInd: int, n: nat): (j: nat)
    requires ValidChannel(chnInd, n)
    ensures j < n
  {
    if chnInd - 1 < 0 then chnInd - 1 + n else chnInd - 1
  }

  predicate AllValid(badChannels: seq<int>, n: nat)
  {
    forall k :: 0 <= k < |badChannels| ==> ValidChannel(badChannels[k], n)
  }

  /** The columns the bad-channel list addresses; a channel listed twice
      is one column. */
  function FlippedColumns(badChannels: seq<int>, n: nat): set<nat>
    requires AllValid(badChannels, n)
  {
    set k | 0 <= k < |badChannels| :: ColumnOf(badChannels[k], n)
  }

  /** Channel numbers 1..n are the columns 0..n-1, and the other valid
      numbers, 1-n..0, wrap around to the same columns from the end. */
  lemma ColumnOfSpec(chnInd: int, n: nat)
    ensures ValidChannel(chnInd, n) <==> 1 - n <= chnInd <= n
    ensures 1 <= chnInd <= n ==> ColumnOf(chnInd, n) == chnInd - 1
    ensures 1 <= chnInd <= n ==> ValidChannel(chnInd - n, n) && ColumnOf(chnInd - n, n) == chnInd - 1
  {
  }

  /** Only columns of the matrix are flipped, and column `j` is flipped
      exactly when its 1-based number `j + 1` or the negative number
      `j + 1 - n` that wraps onto it is listed. */
  lemma FlippedColumnsSpec(badChannels: seq<int>, n: nat, j: nat)
    requires AllValid(badChannels, n)
    ensures j in FlippedColumns(badChannels, n) ==> j < n
    ensures j < n ==> (j in FlippedColumns(badChannels, n) <==> j + 1 in badChannels || j + 1 - n in badChannels)
  {
  }

  /** `chnData = -chnData/numExpr`: a new matrix. */
  method ScaleNegated(chnData: array2<real>, numExpr: nat) returns (s: array2<real>)
    requires numExpr > 0
    ensures fresh(s) && s.Length0 == chnData.Length0 && s.Length1 == chnData.Length1
    ensures forall i, j :: 0 <= i < s.Length0 && 0 <= j < s.Length1 ==>
      s[i, j] == -chnData[i, j] / (numExpr as real)
  {
    s := new real[chnData.Length0, chnData.Length1]((i, j) reads chnData
           requires 0 <= i < chnData.Length0 && 0 <= j < chnData.Length1 =>
           -chnData[i, j] / (numExpr as real));
  }

  /** Negates column `j` of `a` in place. */
  method NegateColumn(a: array2<real>, j: nat)
    requires j < a.Length1
    modifies a
    ensures forall i, j' :: 0 <= i < a.Length0 && 0 <= j' < a.Length1 ==>
      a[i, j'] == Signed(old(a[i, j']), j' == j)
  {
    for i := 0 to a.Length0
      invariant forall i', j' :: 0 <= i' < a.Length0 && 0 <= j' < a.Length1 ==>
        a[i', j'] == Signed(old(a[i', j']), j' == j && i' < i)
    {
      a[i, j] := -a[i, j];
    }
  }

  /** `chnData[:, badChannels] = -chnData[:, badChannels]` with the
      1-based channel numbers made 0-based: `IndexError`, with nothing
      changed, when a channel is outside the columns; otherwise every
      addressed column is negated once and every other column kept. */
  method FlipColumns(a: array2<real>, badChannels: seq<int>) returns (r: Result<()>)
    modifies a
    ensures r.Err? <==> !AllValid(badChannels, a.Length1)
    ensures r.Err? ==> r.error == "IndexError" && unchanged(a)
    ensures r.Ok? ==> forall i, j :: 0 <= i < a.Length0 && 0 <= j < a.Length1 ==>
      a[i, j] == Signed(old(a[i, j]), j in FlippedColumns(badChannels, a.Length1))
  {
    var n := a.Length1;
    for k := 0 to |badChannels|
      invariant AllValid(badChannels[..k], n)
    {
      if !ValidChannel(badChannels[k], n) {
        assert !AllValid(badChannels, n);
        return Err("IndexError");
      }
      assert badChannels[..k + 1] == badChannels[..k] + [badChannels[k]];
    }
    assert badChannels[..|badChannels|] == badChannels;
    var cols := FlippedColumns(badChannels, n);
    for j := 0 to n
      invariant forall i, j' :: 0 <= i < a.Length0 && 0 <= j' < n ==>
        a[i, j'] == Signed(old(a[i, j']), j' < j && j' in cols)
    {
      if j in cols {
        NegateColumn(a, j);
      }
    }
    return Ok(());
  }

  /** Entry `[i, c, N]` of a `(d0, d1, d2)` array in Fortran order. */
  function FortranIndex3(d0: nat, d1: nat, d2: nat, i: nat, c: nat, N: nat): (q: nat)
    requires i < d0 && c < d1 && N < d2
    ensures q < d0 * d1 * d2
  {
    RowMajorBound(N, c, d2, d1);
    RowMajorBound(N * d1 + c, i, d2 * d1, d0);
    assert i + d0 * (c + d1 * N) == (N * d1 + c) * d0 + i;
    assert d2 * d1 * d0 == d0 * d1 * d2;
    i + d0 * (c + d1 * N)
  }

  /** `np.reshape(chnDataAll, (d0, d1, d2), order='F')`: `ValueError`
      unless the sizes agree. */
  method ReshapeFortran(flat: seq<real>, d0: nat, d1: nat, d2: nat) returns (r: Result<array3<real>>)
    ensures r.Ok? <==> |flat| == d0 * d1 * d2
    ensures r.Err? ==> r.error == "ValueError"
    ensures r.Ok? ==> var a := r.value;
      && fresh(a) && a.Length0 == d0 && a.Length1 == d1 && a.Length2 == d2
      && forall i, c, N :: 0 <= i < d0 && 0 <= c < d1 && 0 <= N < d2 ==>
           a[i, c, N] == flat[FortranIndex3(d0, d1, d2, i, c, N)]
  {
    if |flat| != d0 * d1 * d2 {
      return Err("ValueError");
    }
    var a := new real[d0, d1, d2]((i, c, N) requires 0 <= i < d0 && 0 <= c < d1 && 0 <= N < d2 =>
               flat[FortranIndex3(d0, d1, d2, i, c, N)]);
    return Ok(a);
  }

  /** The Fortran-order reshape of the decoder's `chndata_all` puts sample
      `i` of element `c` in experiment `N` at `[i, c, N]`. */
  lemma ReshapeMatchesDecoder(L: Layout, N: nat, c: nat, i: nat)
    requires N < L.numExperiments && c < L.numElements && i < L.dataBlockSize
    ensures FortranIndex3(L.dataBlockSize, L.numElements, L.numExperiments, i, c, N) == SlotIndex(L, N, c, i)
  {
    var d0, d1 := L.dataBlockSize, L.numElements;
    assert d0 * (c + d1 * N) == (N * d1 + c) * d0;
  }

  /** Negates `a[:, c, :]` in place. */
  method NegateSlice(a: array3<real>, c: nat)
    requires c < a.Length1
    modifies a
    ensures forall i, c', N :: 0 <= i < a.Length0 && 0 <= c' < a.Length1 && 0 <= N < a.Length2 ==>
      a[i, c', N] == Signed(old(a[i, c', N]), c' == c)
  {
    for i := 0 to a.Length0
      invariant forall i', c', N :: 0 <= i' < a.Length0 && 0 <= c' < a.Length1 && 0 <= N < a.Length2 ==>
        a[i', c', N] == Signed(old(a[i', c', N]), c' == c && i' < i)
    {
      for N := 0 to a.Length2
        invariant forall i', c', N' :: 0 <= i' < a.Length0 && 0 <= c' < a.Length1 && 0 <= N' < a.Length2 ==>
          a[i', c', N'] == Signed(old(a[i', c', N']), c' == c && (i' < i || (i' == i && N' < N)))
      {
        a[i, c, N] := -a[i, c, N];
      }
    }
  }

  /** `chnDataAll[:, badChannels, :] = -chnDataAll[:, badChannels, :]`:
      the same flip on the element axis, for every sample and experiment. */
  method FlipAxis1(a: array3<real>, badChannels: seq<int>) returns (r: Result<()>)
    modifies a
    ensures r.Err? <==> !AllValid(badChannels, a.Length1)
    ensures r.Err? ==> r.error == "IndexError" && unchanged(a)
    ensures r.Ok? ==> forall i, c, N :: 0 <= i < a.Length0 && 0 <= c < a.Length1 && 0 <= N < a.Length2 ==>
      a[i, c, N] == Signed(old(a[i, c, N]), c in FlippedColumns(badChannels, a.Length1))
  {
    var n := a.Length1;
    for k := 0 to |badChannels|
      invariant AllValid(badChannels[..k], n)
    {
      if !ValidChannel(badChannels[k], n) {
        assert !AllValid(badChannels, n);
        return Err("IndexError");
      }
      assert badChannels[..k + 1] == badChannels[..k] + [badChannels[k]];
    }
    assert badChannels[..|badChannels|] == badChannels;
    var cols := FlippedColumns(badChannels, n);
    for c := 0 to n
      invariant forall i, c', N :: 0 <= i < a.Length0 && 0 <= c' < n && 0 <= N < a.Length2 ==>
        a[i, c', N] == Signed(old(a[i, c', N]), c' < c && c' in cols)
    {
      if c in cols {
        NegateSlice(a, c);
      }
    }
    return Ok(());
  }

  /** Lines 127-136 of `read_channel_data`: the averaged, sign-corrected
      `chnData` and the per-experiment `chnDataAll`, or the exception raised
      first (`IndexError` for a bad channel outside `chnData`, `ValueError`
      for a size mismatch in the reshape, `IndexError` for one outside
      `numElements`). `chnData` itself is not changed: the scaling makes a
      new matrix. */
  method FixChannelData(chnData: array2<real>, chnDataAll: seq<real>, numExpr: nat, badChannels: seq<int>,
                        dataBlockSize: nat, numElements: nat)
    returns (r: Result<(array2<real>, array3<real>)>)
    requires numExpr > 0
    ensures r.Err? <==>
      !AllValid(badChannels, chnData.Length1)
      || |chnDataAll| != dataBlockSize * numElements * numExpr
      || !AllValid(badChannels, numElements)
    ensures r.Err? ==> r.error == if !AllValid(badChannels, chnData.Length1) then "IndexError"
                                  else if |chnDataAll| != dataBlockSize * numElements * numExpr then "ValueError"
                                  else "IndexError"
    ensures r.Ok? ==> var (chn, all) := r.value;
      && fresh(chn) && fresh(all)
      && chn.Length0 == chnData.Length0 && chn.Length1 == chnData.Length1
      && all.Length0 == dataBlockSize && all.Length1 == numElements && all.Length2 == numExpr
      && (forall i, j :: 0 <= i < chn.Length0 && 0 <= j < chn.Length1 ==>
            chn[i, j] == Signed(-chnData[i, j] / (numExpr as real), j in FlippedColumns(badChannels, chn.Length1)))
      && (forall i, c, N :: 0 <= i < dataBlockSize && 0 <= c < numElements && 0 <= N < numExpr ==>
            all[i, c, N] == Signed(chnDataAll[FortranIndex3(dataBlockSize, numElements, numExpr, i, c, N)],
                                   c in FlippedColumns(badChannels, numElements)))
  {
    var chn := ScaleNegated(chnData, numExpr);
    var flipped := FlipColumns(chn, badChannels);
    if flipped.Err? {
      return Err(flipped.error);
    }
    var reshaped := ReshapeFortran(chnDataAll, dataBlockSize, numElements, numExpr);
    if reshaped.Err? {
      return Err(reshaped.error);
    }
    var all := reshaped.value;
    flipped := FlipAxis1(all, badChannels);
    if flipped.Err? {
      return Err(flipped.error);
    }
    return Ok((chn, all));
  }

  /** Sum of `a[i, c, N]` over the first `m` experiments. */
  function AxisSum(a: array3<real>, i: nat, c: nat, m: nat): real
    requires i < a.Length0 && c < a.Length1 && m <= a.Length2
    reads a
  {
    if m == 0 then 0.0 else AxisSum(a, i, c, m - 1) + a[i, c, m - 1]
  }

  lemma {:induction false} AxisSumOfFlipped(L: Layout, st: Buffers, all: array3<real>, flips: set<nat>,
                                            i: nat, c: nat, m: nat)
    requires i < L.dataBlockSize && c < L.numElements && m <= L.numExperiments
    requires L.numExperiments * L.numElements * L.dataBlockSize <= |st.all|
    requires all.Length0 == L.dataBlockSize && all.Length1 == L.numElements && all.Length2 == L.numExperiments
    requires forall N :: 0 <= N < L.numExperiments ==>
      all[i, c, N] == Signed(st.all[SlotIndex(L, N, c, i)], c in flips)
    ensures AxisSum(all, i, c, m) == Signed(ExpSum(L, st.all, c, i, m), c in flips)
  {
    if m > 0 {
      AxisSumOfFlipped(L, st, all, flips, i, c, m - 1);
    }
  }

  /** After the fix-up of a decoder run whose buffers satisfy `Consistent`
      (an injective channel map on zeroed buffers), `chnData[i, c]` is the
      mean over the experiments of `chnDataAll[i, c, :]`, flipped channels
      included: the scaling by `-1/numExpr` turns the decoder's negated sum
      into a mean, and the same columns are flipped in both. Here `chnIn`
      is the decoder's `chndata` as a `(dataBlockSize, numElements)` matrix
      and `chnDataAll` its `chndata_all`. */
  lemma ChannelDataIsExperimentMean(L: Layout, st: Buffers, chnIn: array2<real>, chn: array2<real>,
                                    all: array3<real>, flips: set<nat>)
    requires Consistent(L, st) && L.numExperiments > 0
    requires chnIn.Length0 == L.dataBlockSize && chnIn.Length1 == L.numElements
    requires chn.Length0 == L.dataBlockSize && chn.Length1 == L.numElements
    requires all.Length0 == L.dataBlockSize && all.Length1 == L.numElements && all.Length2 == L.numExperiments
    requires forall i, c :: 0 <= i < L.dataBlockSize && 0 <= c < L.numElements ==>
      chnIn[i, c] == st.chn[ChnIndex(L, c, i)]
    requires forall i, c :: 0 <= i < L.dataBlockSize && 0 <= c < L.numElements ==>
      chn[i, c] == Signed(-chnIn[i, c] / (L.numExperiments as real), c in flips)
    requires forall i, c, N :: 0 <= i < L.dataBlockSize && 0 <= c < L.numElements && 0 <= N < L.numExperiments ==>
      all[i, c, N] == Signed(st.all[FortranIndex3(L.dataBlockSize, L.numElements, L.numExperiments, i, c, N)], c in flips)
    ensures forall i, c :: 0 <= i < L.dataBlockSize && 0 <= c < L.numElements ==>
      chn[i, c] == AxisSum(all, i, c, L.numExperiments) / (L.numExperiments as real)
  {
    forall i, c | 0 <= i < L.dataBlockSize && 0 <= c < L.numElements
      ensures chn[i, c] == AxisSum(all, i, c, L.numExperiments) / (L.numExperiments as real)
    {
      forall N | 0 <= N < L.numExperiments
        ensures all[i, c, N] == Signed(st.all[SlotIndex(L, N, c, i)], c in flips)
      {
        ReshapeMatchesDecoder(L, N, c, i);
      }
      AxisSumOfFlipped(L, st, all, flips, i, c, L.numExperiments);
      var sum := ExpSum(L, st.all, c, i, L.numExperiments);
      assert -chnIn[i, c] == sum;
      SignedDiv(sum, L.numExperiments as real, c in flips);
    }
  }

  lemma SignedDiv(x: real, d: real, flip: bool)
    requires d != 0.0
    ensures Signed(x / d, flip) == Signed(x, flip) / d
  {
  }
}
