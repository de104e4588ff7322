/** The delay-and-sum accumulation shared by the two reconstruction kernels
    (recon_loop_ext.c and old_codes/recon_loop.c): what it computes, stated
    on values, and the pass over all pixels that both kernels make per step.

    Both kernels walk a flat map of `steps x pixels` entries. Entry
    `s * pixels + p` holds, for depth step (transducer) `s` and image pixel
    `p`, a 1-based sample index into column `s` of the channel data and the
    weight of that sample. The channel data is one flat column-major buffer
    whose columns are `nTimeSamples` long. */
module Backprojection {
  import opened Common

  /** The indices as a kernel reads them: each raw entry through the C
      conversion `cast` the kernel applies. */
  function CastAll<T>(raw: seq<T>, cast: T -> int): (r: seq<int>)
    ensures |r| == |raw|
    ensures forall k :: 0 <= k < |raw| ==> r[k] == cast(raw[k])
  {
    seq(|raw|, k requires 0 <= k < |raw| => cast(raw[k]))
  }

  /** Position in the flat map of the entry for step `s` and pixel `p`. */
  function MapPos(s: nat, p: nat, pixels: nat): nat
  {
    s * pixels + p
  }

  /** Position in the channel data read for the 1-based sample index `idx`
      at step `s`: the kernels add `iskip = nTimeSamples * s - 1`. */
  function SamplePos(idx: int, nTimeSamples: nat, s: nat): int
  {
    idx + (nTimeSamples * s - 1)
  }

  /** The map entry for (s, p) exists and the sample it names lies inside
      the channel data. */
  predicate ReadAt(dataLen: nat, idx: seq<int>, pixels: nat, nTimeSamples: nat, s: nat, p: nat)
  {
    MapPos(s, p, pixels) < |idx| && 0 <= SamplePos(idx[MapPos(s, p, pixels)], nTimeSamples, s) < dataLen
  }

  /** Every read the kernel makes during the first `steps` steps is inside
      the channel data: the kernels check nothing, so their callers must
      ensure this. */
  predicate ReadsInBounds(dataLen: nat, idx: seq<int>, pixels: nat, steps: nat, nTimeSamples: nat)
  {
    forall s: nat, p: nat :: s < steps && p < pixels ==> ReadAt(dataLen, idx, pixels, nTimeSamples, s, p)
  }

  /** Every 1-based index of step `s` names a sample of column `s`. */
  predicate IndicesInColumns(idx: seq<int>, pixels: nat, steps: nat, nTimeSamples: nat)
  {
    forall s: nat, p: nat :: s < steps && p < pixels ==>
      MapPos(s, p, pixels) < |idx| && 1 <= idx[MapPos(s, p, pixels)] <= nTimeSamples
  }

  /** What pixel `p` holds after the first `steps` steps, starting from zero. */
  function PixelSum(data: seq<real>, idx: seq<int>, weight: seq<real>,
                    pixels: nat, nTimeSamples: nat, p: nat, steps: nat): real
    requires p < pixels && steps * pixels <= |weight|
    requires ReadsInBounds(|data|, idx, pixels, steps, nTimeSamples)
  {
    if steps == 0 then 0.0
    else
      RowMajorBound(steps - 1, p, steps, pixels);
      var k := MapPos(steps - 1, p, pixels);
      assert ReadAt(|data|, idx, pixels, nTimeSamples, steps - 1, p);
      PixelSum(data, idx, weight, pixels, nTimeSamples, p, steps - 1)
      + data[SamplePos(idx[k], nTimeSamples, steps - 1)] * weight[k]
  }

  /** The contribution of step `s` to pixel `p`. */
  function StepTerm(data: seq<real>, idx: seq<int>, weight: seq<real>,
                    pixels: nat, nTimeSamples: nat, p: nat, s: nat): real
    requires p < pixels && MapPos(s, p, pixels) < |weight|
    requires ReadAt(|data|, idx, pixels, nTimeSamples, s, p)
  {
    data[SamplePos(idx[MapPos(s, p, pixels)], nTimeSamples, s)] * weight[MapPos(s, p, pixels)]
  }

  /** One more step adds that step's contribution. */
  lemma PixelSumStep(data: seq<real>, idx: seq<int>, weight: seq<real>,
                     pixels: nat, nTimeSamples: nat, p: nat, s: nat)
    requires p < pixels && (s + 1) * pixels <= |weight|
    requires ReadsInBounds(|data|, idx, pixels, s + 1, nTimeSamples)
    ensures MapPos(s, p, pixels) < |weight| && ReadAt(|data|, idx, pixels, nTimeSamples, s, p)
    ensures PixelSum(data, idx, weight, pixels, nTimeSamples, p, s + 1)
         == PixelSum(data, idx, weight, pixels, nTimeSamples, p, s)
            + StepTerm(data, idx, weight, pixels, nTimeSamples, p, s)
  {
    RowMajorBound(s, p, s + 1, pixels);
  }

  /** After a pass of step `s` that added each pixel's step term, every
      pixel holds its start value plus the sum over the first `s + 1` steps. */
  lemma PixelSumsAdvance(data: seq<real>, idx: seq<int>, weight: seq<real>,
                         pixels: nat, nTimeSamples: nat, s: nat,
                         start: seq<real>, before: seq<real>, after: seq<real>)
    requires s * pixels <= |weight| && (s + 1) * pixels <= |weight|
    requires ReadsInBounds(|data|, idx, pixels, s, nTimeSamples)
    requires ReadsInBounds(|data|, idx, pixels, s + 1, nTimeSamples)
    requires pixels <= |start| && pixels <= |before| && pixels <= |after|
    requires forall p :: 0 <= p < pixels ==>
      before[p] == start[p] + PixelSum(data, idx, weight, pixels, nTimeSamples, p, s)
    requires forall p :: 0 <= p < pixels ==>
      MapPos(s, p, pixels) < |weight| && ReadAt(|data|, idx, pixels, nTimeSamples, s, p)
      && after[p] == before[p] + StepTerm(data, idx, weight, pixels, nTimeSamples, p, s)
    ensures forall p :: 0 <= p < pixels ==>
      after[p] == start[p] + PixelSum(data, idx, weight, pixels, nTimeSamples, p, s + 1)
  {
    forall p | 0 <= p < pixels
      ensures after[p] == start[p] + PixelSum(data, idx, weight, pixels, nTimeSamples, p, s + 1)
    {
      PixelSumStep(data, idx, weight, pixels, nTimeSamples, p, s);
    }
  }

  /** The contribution of each step to pixel `p`. */
  function Contributions(data: seq<real>, idx: seq<int>, weight: seq<real>,
                         pixels: nat, nTimeSamples: nat, p: nat, steps: nat): (c: seq<real>)
    requires p < pixels && steps * pixels <= |weight|
    requires ReadsInBounds(|data|, idx, pixels, steps, nTimeSamples)
    ensures |c| == steps
  {
    seq(steps, s requires 0 <= s < steps =>
      RowMajorBound(s, p, steps, pixels);
      assert ReadAt(|data|, idx, pixels, nTimeSamples, s, p);
      data[SamplePos(idx[MapPos(s, p, pixels)], nTimeSamples, s)] * weight[MapPos(s, p, pixels)])
  }

  lemma ReadsInBoundsPrefix(dataLen: nat, idx: seq<int>, pixels: nat, steps: nat, fewer: nat, nTimeSamples: nat)
    requires fewer <= steps
    requires ReadsInBounds(dataLen, idx, pixels, steps, nTimeSamples)
    ensures ReadsInBounds(dataLen, idx, pixels, fewer, nTimeSamples)
  {
  }

  /** The accumulated pixel is the sum of the per-step contributions
      sample(idx[s*P+p] + nTimeSamples*s - 1) * weight[s*P+p], s < steps. */
  lemma {:induction false} PixelSumIsSumOfContributions(data: seq<real>, idx: seq<int>, weight: seq<real>,
                                                        pixels: nat, nTimeSamples: nat, p: nat, steps: nat)
    requires p < pixels && steps * pixels <= |weight|
    requires ReadsInBounds(|data|, idx, pixels, steps, nTimeSamples)
    ensures PixelSum(data, idx, weight, pixels, nTimeSamples, p, steps)
         == Sum(Contributions(data, idx, weight, pixels, nTimeSamples, p, steps))
  {
    if steps > 0 {
      MulRightMono(steps - 1, steps, pixels);
      var c := Contributions(data, idx, weight, pixels, nTimeSamples, p, steps);
      var c' := Contributions(data, idx, weight, pixels, nTimeSamples, p, steps - 1);
      assert c[..steps - 1] == c';
      PixelSumIsSumOfContributions(data, idx, weight, pixels, nTimeSamples, p, steps - 1);
    }
  }

  /** With every weight zero the image is zero, for any indices that keep
      every read in bounds. */
  lemma {:induction false} ZeroWeightsGiveZero(data: seq<real>, idx: seq<int>, weight: seq<real>,
                                               pixels: nat, nTimeSamples: nat, p: nat, steps: nat)
    requires p < pixels && steps * pixels <= |weight|
    requires ReadsInBounds(|data|, idx, pixels, steps, nTimeSamples)
    requires forall k :: 0 <= k < steps * pixels ==> weight[k] == 0.0
    ensures PixelSum(data, idx, weight, pixels, nTimeSamples, p, steps) == 0.0
  {
    if steps > 0 {
      MulRightMono(steps - 1, steps, pixels);
      RowMajorBound(steps - 1, p, steps, pixels);
      ZeroWeightsGiveZero(data, idx, weight, pixels, nTimeSamples, p, steps - 1);
    }
  }

  /** The pixel depends on the indices only through the entries the kernel
      reads, the first `steps * pixels` of them. */
  lemma {:induction false} PixelSumDependsOnReadEntries(data: seq<real>, idx: seq<int>, idx': seq<int>, weight: seq<real>,
                                                        pixels: nat, nTimeSamples: nat, p: nat, steps: nat)
    requires p < pixels && steps * pixels <= |weight|
    requires steps * pixels <= |idx| && steps * pixels <= |idx'|
    requires forall k :: 0 <= k < steps * pixels ==> idx[k] == idx'[k]
    requires ReadsInBounds(|data|, idx, pixels, steps, nTimeSamples)
    ensures ReadsInBounds(|data|, idx', pixels, steps, nTimeSamples)
    ensures PixelSum(data, idx, weight, pixels, nTimeSamples, p, steps)
         == PixelSum(data, idx', weight, pixels, nTimeSamples, p, steps)
  {
    forall s: nat, p': nat | s < steps && p' < pixels
      ensures ReadAt(|data|, idx', pixels, nTimeSamples, s, p')
    {
      RowMajorBound(s, p', steps, pixels);
      assert ReadAt(|data|, idx, pixels, nTimeSamples, s, p');
    }
    if steps > 0 {
      MulRightMono(steps - 1, steps, pixels);
      RowMajorBound(steps - 1, p, steps, pixels);
      PixelSumDependsOnReadEntries(data, idx, idx', weight, pixels, nTimeSamples, p, steps - 1);
    }
  }

  /** An entry of step `s` reads inside column `s` of the channel data
      exactly when its 1-based index lies in 1..nTimeSamples. */
  lemma ReadsOwnColumn(idx: int, nTimeSamples: nat, s: nat)
    ensures nTimeSamples * s <= SamplePos(idx, nTimeSamples, s) < nTimeSamples * s + nTimeSamples
        <==> 1 <= idx <= nTimeSamples
  {
  }

  /** Indices inside their columns and channel data at least `steps`
      columns long make every read of the kernel safe. */
  lemma IndicesInColumnsAreInBounds(dataLen: nat, idx: seq<int>, pixels: nat, steps: nat, nTimeSamples: nat)
    requires IndicesInColumns(idx, pixels, steps, nTimeSamples)
    requires nTimeSamples * steps <= dataLen
    ensures ReadsInBounds(dataLen, idx, pixels, steps, nTimeSamples)
  {
    forall s: nat, p: nat | s < steps && p < pixels
      ensures ReadAt(dataLen, idx, pixels, nTimeSamples, s, p)
    {
      ReadsOwnColumn(idx[MapPos(s, p, pixels)], nTimeSamples, s);
      MulRightMono(s + 1, steps, nTimeSamples);
      assert (s + 1) * nTimeSamples == nTimeSamples * s + nTimeSamples;
    }
  }

  /** An all-zero index map (as the recon_loop test script builds) makes the
      very first read fall before the channel data. */
  lemma ZeroIndexReadsBeforeData(dataLen: nat, idx: seq<int>, pixels: nat, steps: nat, nTimeSamples: nat)
    requires 0 < pixels && 0 < steps && 0 < |idx| && idx[0] == 0
    ensures !ReadsInBounds(dataLen, idx, pixels, steps, nTimeSamples)
  {
    assert !ReadAt(dataLen, idx, pixels, nTimeSamples, 0, 0);
  }

  /** One pass of a kernel's step loop: for every pixel in flat order (x
      fastest, then y), add the sample named by the next map entry times
      its weight. `icount` counts map entries read so far; `visited` lists
      the entries this pass reads, in order. */
  method AccumulateStep<T>(data: seq<real>, idxRaw: seq<T>, cast: T -> int, weight: seq<real>,
                           nPixelx: nat, nPixely: nat, nTimeSamples: nat, iStep: nat, icount: nat,
                           img: array<real>)
    returns (icountAfter: nat, ghost visited: seq<nat>)
    requires icount == iStep * (nPixelx * nPixely)
    requires (iStep + 1) * (nPixelx * nPixely) <= |weight|
    requires nPixelx * nPixely <= img.Length
    requires forall p :: 0 <= p < nPixelx * nPixely ==>
      ReadAt(|data|, CastAll(idxRaw, cast), nPixelx * nPixely, nTimeSamples, iStep, p)
    modifies img
    ensures icountAfter == icount + nPixelx * nPixely
    ensures forall p :: 0 <= p < nPixelx * nPixely ==>
      MapPos(iStep, p, nPixelx * nPixely) < |weight|
      && ReadAt(|data|, CastAll(idxRaw, cast), nPixelx * nPixely, nTimeSamples, iStep, p)
      && img[p] == old(img[p]) + StepTerm(data, CastAll(idxRaw, cast), weight, nPixelx * nPixely, nTimeSamples, p, iStep)
    ensures forall p :: nPixelx * nPixely <= p < img.Length ==> img[p] == old(img[p])
    ensures |visited| == nPixelx * nPixely
    ensures forall k :: 0 <= k < |visited| ==> visited[k] == icount + k
  {
    ghost var P := nPixelx * nPixely;
    ghost var idx := CastAll(idxRaw, cast);
    MulRightMono(iStep + 1, iStep + 1, P);
    visited := [];
    icountAfter := icount;
    var pcount: nat := 0;
    var iskip := nTimeSamples * iStep - 1;
    for y := 0 to nPixely
      invariant pcount == y * nPixelx <= P
      invariant icountAfter == icount + pcount
      invariant |visited| == pcount && forall k :: 0 <= k < pcount ==> visited[k] == icount + k
      invariant forall p :: 0 <= p < pcount ==>
        MapPos(iStep, p, P) < |weight| && ReadAt(|data|, idx, P, nTimeSamples, iStep, p)
        && img[p] == old(img[p]) + StepTerm(data, idx, weight, P, nTimeSamples, p, iStep)
      invariant forall p :: pcount <= p < img.Length ==> img[p] == old(img[p])
    {
      MulRightMono(y + 1, nPixely, nPixelx);
      assert (y + 1) * nPixelx == y * nPixelx + nPixelx;
      ghost var row := pcount;
      for x := 0 to nPixelx
        invariant pcount == row + x
        invariant icountAfter == icount + pcount
        invariant |visited| == pcount && forall k :: 0 <= k < pcount ==> visited[k] == icount + k
        invariant forall p :: 0 <= p < pcount ==>
          MapPos(iStep, p, P) < |weight| && ReadAt(|data|, idx, P, nTimeSamples, iStep, p)
          && img[p] == old(img[p]) + StepTerm(data, idx, weight, P, nTimeSamples, p, iStep)
        invariant forall p :: pcount <= p < img.Length ==> img[p] == old(img[p])
      {
        assert ReadAt(|data|, idx, P, nTimeSamples, iStep, pcount);
        assert MapPos(iStep, pcount, P) == icountAfter < |weight|;
        ghost var term := StepTerm(data, idx, weight, P, nTimeSamples, pcount, iStep);
        assert term == data[cast(idxRaw[icountAfter]) + iskip] * weight[icountAfter];
        img[pcount] := img[pcount] + data[cast(idxRaw[icountAfter]) + iskip] * weight[icountAfter];
        pcount := pcount + 1;
        visited := visited + [icountAfter];
        icountAfter := icountAfter + 1;
      }
    }
  }

  /** One step of either kernel: the pass over all pixels, after which each
      pixel holds what it held before the first step plus the sum over one
      more step. */
  method AdvanceStep<T>(data: seq<real>, idxRaw: seq<T>, cast: T -> int, weight: seq<real>,
                        nPixelx: nat, nPixely: nat, nTimeSamples: nat, iStep: nat, icount: nat,
                        img: array<real>, ghost start: seq<real>)
    returns (icountAfter: nat, ghost visited: seq<nat>)
    requires icount == iStep * (nPixelx * nPixely)
    requires iStep * (nPixelx * nPixely) <= |weight| && (iStep + 1) * (nPixelx * nPixely) <= |weight|
    requires ReadsInBounds(|data|, CastAll(idxRaw, cast), nPixelx * nPixely, iStep, nTimeSamples)
    requires ReadsInBounds(|data|, CastAll(idxRaw, cast), nPixelx * nPixely, iStep + 1, nTimeSamples)
    requires nPixelx * nPixely <= img.Length && nPixelx * nPixely <= |start|
    requires forall p :: 0 <= p < nPixelx * nPixely ==>
      img[p] == start[p] + PixelSum(data, CastAll(idxRaw, cast), weight, nPixelx * nPixely, nTimeSamples, p, iStep)
    modifies img
    ensures icountAfter == icount + nPixelx * nPixely
    ensures forall p :: 0 <= p < nPixelx * nPixely ==>
      img[p] == start[p] + PixelSum(data, CastAll(idxRaw, cast), weight, nPixelx * nPixely, nTimeSamples, p, iStep + 1)
    ensures forall p :: nPixelx * nPixely <= p < img.Length ==> img[p] == old(img[p])
    ensures |visited| == nPixelx * nPixely
    ensures forall k :: 0 <= k < |visited| ==> visited[k] == icount + k
  {
    ghost var before := img[..];
    icountAfter, visited := AccumulateStep(data, idxRaw, cast, weight, nPixelx, nPixely,
                                           nTimeSamples, iStep, icount, img);
    PixelSumsAdvance(data, CastAll(idxRaw, cast), weight, nPixelx * nPixely, nTimeSamples, iStep,
                     start, before, img[..]);
  }
}
