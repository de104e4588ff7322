/** The MATLAB predecessor of the decoder (old_codes/daq_loop.c): the same
    loops with the sizes fixed at DataBlockSize 1300, NumElements 512,
    TotFirings 8 and NumDaqChnsBoard 32, pack words delivered as doubles
    and converted with `(int)`, and output matrices that MATLAB allocates
    zeroed. */
module DaqLoopMex {
  import opened Common
  import opened DaqLayout
  import opened DaqSpec
  import DaqLoopImp

  const MEX_DATA_BLOCK_SIZE: nat := 1300
  const MEX_NUM_ELEMENTS: nat := 512
  const MEX_TOT_FIRINGS: nat := 8
  const MEX_NUM_DAQ_CHNS_BOARD: nat := 32

  /** The decoder's sizes for `numExperiments` experiments. */
  function MexLayout(numExperiments: nat): (L: Layout)
    ensures FitsScratch(L) && L.numElements > 0 && L.numDaqChnsBoard <= BOARD_CHANNELS
    ensures L.numExperiments == numExperiments && L.totFirings == 8 && L.numDaqChnsBoard == 32
    ensures L.dataBlockSize == 1300 && L.numElements == 512
  {
    Layout(numExperiments, MEX_TOT_FIRINGS, MEX_NUM_DAQ_CHNS_BOARD, MEX_DATA_BLOCK_SIZE, MEX_NUM_ELEMENTS)
  }

  /** A double the C conversion `(int)d` is defined for: its truncation
      lies in the range of a 32-bit int. */
  predicate FitsInt(d: real)
  {
    -(TWO_POW_31 as real) - 1.0 < d < TWO_POW_31 as real
  }

  /** The 32 bits of `(int)d`, read as an unsigned number: the double
      truncated toward zero, two's complement for negative values. */
  function IntBits(d: real): (u: nat)
    requires FitsInt(d)
    ensures u < TWO_POW_32 && (u - TruncToInt(d)) % TWO_POW_32 == 0
    ensures 0.0 <= d ==> u == TruncToInt(d)
  {
    var t := TruncToInt(d);
    if t < 0 then t + TWO_POW_32 else t
  }

  /** `(int)pack_data[k]` as the word the shifts and masks work on. */
  function DoubleToWord(d: real): bv32
    requires FitsInt(d)
  {
    IntBits(d) as bv32
  }

  /** The words of a board, converted one by one. */
  function DoublesToWords(ds: seq<real>): (ws: seq<bv32>)
    requires forall k :: 0 <= k < |ds| ==> FitsInt(ds[k])
    ensures |ws| == |ds|
    ensures forall k :: 0 <= k < |ds| ==> ws[k] == DoubleToWord(ds[k])
  {
    seq(|ds|, k requires 0 <= k < |ds| => DoubleToWord(ds[k]))
  }

  /** A non-negative int handed over as a double keeps its value. */
  lemma IntBitsOfNat(n: nat)
    requires n < TWO_POW_31
    ensures FitsInt(n as real) && IntBits(n as real) == n
  {
    assert (n as real).Floor == n;
  }

  /** A word below 2^31 handed over as a double converts back to itself,
      so both decoders see the same bits. */
  lemma DoubleToWordOfWord(w: bv32)
    requires w as int < TWO_POW_31
    ensures FitsInt(w as int as real) && DoubleToWord(w as int as real) == w
  {
    IntBitsOfNat(w as int);
    WordRoundTrip(w);
  }

  lemma WordRoundTrip(w: bv32)
    ensures (w as int) as bv32 == w
  {
  }

  /** Whole boards of such words convert back to themselves. */
  lemma DoublesToWordsOfWords(ws: seq<bv32>)
    requires forall k :: 0 <= k < |ws| ==> ws[k] as int < TWO_POW_31
    ensures forall k :: 0 <= k < |ws| ==> FitsInt(ws[k] as int as real)
    ensures DoublesToWords(seq(|ws|, k requires 0 <= k < |ws| => ws[k] as int as real)) == ws
  {
    var ds := seq(|ws|, k requires 0 <= k < |ws| => ws[k] as int as real);
    forall k | 0 <= k < |ws|
      ensures FitsInt(ds[k]) && DoubleToWord(ds[k]) == ws[k]
    {
      DoubleToWordOfWord(ws[k]);
    }
  }

  /** `mexFunction`: the zeroed outputs of sizes 1300 x 512 and
      1300 x (NumExperiments * 512) end as the scatter steps of `AllJobs`
      applied to zero buffers, which is what `daq_loop_imp` computes on
      the same words with these sizes and zeroed buffers; with an injective
      map, `chndata` is minus the sum of `chndata_all` over experiments. */
  method MexDaqLoop(packData1: seq<real>, packData2: seq<real>, chanMap: seq<real>, numExperiments: nat)
    returns (chndata: array<real>, chndataAll: array<real>)
    requires forall k :: 0 <= k < |packData1| ==> FitsInt(packData1[k])
    requires forall k :: 0 <= k < |packData2| ==> FitsInt(packData2[k])
    requires var L := MexLayout(numExperiments);
      && WellFormed(L, [DoublesToWords(packData1), DoublesToWords(packData2)], chanMap)
      && DestsInRange(L, chanMap)
    ensures fresh(chndata) && fresh(chndataAll)
    ensures chndata.Length == MEX_DATA_BLOCK_SIZE * MEX_NUM_ELEMENTS
    ensures chndataAll.Length == MEX_DATA_BLOCK_SIZE * (numExperiments * MEX_NUM_ELEMENTS)
    ensures var L := MexLayout(numExperiments);
      var packs := [DoublesToWords(packData1), DoublesToWords(packData2)];
      && DaqLoopImp.Outputs(chndata, chndataAll) == ApplyJobs(L, ZeroBuffers(L), AllJobs(L, packs, chanMap))
      && (MapInjective(L, chanMap) ==> Consistent(L, DaqLoopImp.Outputs(chndata, chndataAll)))
  {
    var L := MexLayout(numExperiments);
    var packs := [DoublesToWords(packData1), DoublesToWords(packData2)];
    chndata := new real[MEX_DATA_BLOCK_SIZE * MEX_NUM_ELEMENTS](_ => 0.0);
    chndataAll := new real[MEX_DATA_BLOCK_SIZE * (numExperiments * MEX_NUM_ELEMENTS)](_ => 0.0);
    assert MEX_DATA_BLOCK_SIZE * (numExperiments * MEX_NUM_ELEMENTS)
        == L.numExperiments * L.numElements * L.dataBlockSize;
    DestsInRangeScatterInBounds(L, chanMap);
    assert DaqLoopImp.Outputs(chndata, chndataAll) == ZeroBuffers(L);
    DaqLoopImp.DaqLoopImp(packs, chanMap, numExperiments, chndata, chndataAll,
                          MEX_TOT_FIRINGS, MEX_NUM_DAQ_CHNS_BOARD, MEX_DATA_BLOCK_SIZE, MEX_NUM_ELEMENTS);
    if MapInjective(L, chanMap) {
      DecoderConsistent(L, packs, chanMap);
    }
  }
}
