/** The MATLAB predecessor of the reconstruction kernel
    (old_codes/recon_loop.c): the same accumulation, with every input a
    double, the sample indices converted by truncation and the column
    stride of the channel data fixed at 1301 samples. */
module ReconLoopMex {
  import opened Common
  import opened Backprojection
  import ReconLoopExt

  /** Column stride of the channel data the MEX kernel assumes. */
  const MEX_COLUMN: nat := 1301

  /** The indices as the MEX kernel reads them: `(int)idxall[k]` of a
      double entry. */
  function TruncAll(idxall: seq<real>): (r: seq<int>)
    ensures |r| == |idxall|
    ensures forall k :: 0 <= k < |idxall| ==> r[k] == TruncToInt(idxall[k])
    ensures forall k :: 0 <= k < |idxall| && 0.0 <= idxall[k] ==>
      0 <= r[k] && r[k] as real <= idxall[k] < r[k] as real + 1.0
    ensures forall k :: 0 <= k < |idxall| && idxall[k] < 0.0 ==>
      r[k] <= 0 && r[k] as real - 1.0 < idxall[k] <= r[k] as real
  {
    CastAll(idxall, TruncToInt)
  }

  /** `mexFunction`: a fresh zeroed `npixelY x npixelX` image; for every
      step, one pass over its `npixelY * npixelX` entries in flat order
      adding sample * weight, with `iskip = 1301 * iStep - 1`. */
  method MexReconLoop(paData: seq<real>, idxall: seq<real>, angleWeightAll: seq<real>,
                      npixelY: nat, npixelX: nat, nstep: nat)
    returns (paImg: array<real>, ghost visited: seq<nat>)
    requires nstep * (npixelX * npixelY) <= |idxall|
    requires nstep * (npixelX * npixelY) <= |angleWeightAll|
    requires ReadsInBounds(|paData|, TruncAll(idxall), npixelX * npixelY, nstep, MEX_COLUMN)
    ensures fresh(paImg) && paImg.Length == npixelY * npixelX
    ensures forall p :: 0 <= p < npixelX * npixelY ==>
      paImg[p] == PixelSum(paData, TruncAll(idxall), angleWeightAll, npixelX * npixelY, MEX_COLUMN, p, nstep)
    ensures |visited| == nstep * (npixelX * npixelY)
    ensures forall k :: 0 <= k < |visited| ==> visited[k] == k
  {
    ghost var P := npixelX * npixelY;
    ghost var idx := TruncAll(idxall);
    paImg := new real[npixelY * npixelX](_ => 0.0);
    visited := [];
    var icount: nat := 0;
    for iStep := 0 to nstep
      invariant icount == iStep * P
      invariant |visited| == icount && forall k :: 0 <= k < icount ==> visited[k] == k
      invariant forall p :: 0 <= p < P ==>
        paImg[p] == PixelSum(paData, idx, angleWeightAll, P, MEX_COLUMN, p, iStep)
    {
      MulRightMono(iStep + 1, nstep, P);
      assert (iStep + 1) * P == iStep * P + P;
      ReadsInBoundsPrefix(|paData|, idx, P, nstep, iStep, MEX_COLUMN);
      ReadsInBoundsPrefix(|paData|, idx, P, nstep, iStep + 1, MEX_COLUMN);
      ghost var pass;
      icount, pass := AdvanceStep(paData, idxall, TruncToInt, angleWeightAll, npixelX, npixelY,
                                  MEX_COLUMN, iStep, icount, paImg, seq(P, _ => 0.0));
      visited := visited + pass;
    }
  }

  /** Fed the same index map (as doubles here, as unsigned 64-bit integers
      below 2^31 there) and channel data with 1301-sample columns, the MEX
      kernel and the Python extension compute the same pixels. */
  lemma {:induction false} MexMatchesExt(paData: seq<real>, idxall: seq<real>, idxAll: seq<nat>,
                                         weight: seq<real>, pixels: nat, p: nat, steps: nat)
    requires p < pixels && steps * pixels <= |weight|
    requires steps * pixels <= |idxall| && steps * pixels <= |idxAll|
    requires forall k :: 0 <= k < steps * pixels ==> idxAll[k] < TWO_POW_31 && idxall[k] == idxAll[k] as real
    requires ReadsInBounds(|paData|, TruncAll(idxall), pixels, steps, MEX_COLUMN)
    ensures ReadsInBounds(|paData|, ReconLoopExt.WrapAll(idxAll), pixels, steps, MEX_COLUMN)
    ensures PixelSum(paData, TruncAll(idxall), weight, pixels, MEX_COLUMN, p, steps)
         == PixelSum(paData, ReconLoopExt.WrapAll(idxAll), weight, pixels, MEX_COLUMN, p, steps)
  {
    var a := TruncAll(idxall);
    var b := ReconLoopExt.WrapAll(idxAll);
    forall k | 0 <= k < steps * pixels
      ensures a[k] == b[k]
    {
      assert (idxAll[k] as real).Floor == idxAll[k];
    }
    PixelSumDependsOnReadEntries(paData, a, b, weight, pixels, MEX_COLUMN, p, steps);
  }
}
