/** The Python extension `recon_loop` (recon_loop_ext.c): the accumulation
    kernel `recon_loop_imp` and the entry point that validates the numpy
    arguments and allocates the image. */
module ReconLoopExt {
  import opened Common
  import opened Backprojection

  /** The indices as the kernel reads them: `(int)idxAll[k]` of an unsigned
      64-bit entry. */
  function WrapAll(idxAll: seq<nat>): (r: seq<int>)
    ensures |r| == |idxAll|
    ensures forall k :: 0 <= k < |idxAll| && idxAll[k] < TWO_POW_31 ==> r[k] == idxAll[k]
  {
    CastAll(idxAll, Int32Wrap)
  }

  /** `recon_loop_imp`: for every step, one pass over all pixels adding
      sample * weight into each (`AccumulateStep`). It adds onto what
      `paImg` already holds; the ghost `visited` lists the map entries in
      the order the kernel reads them. */
  method ReconLoopImp(paData: seq<real>, idxAll: seq<nat>, angularWeight: seq<real>,
                      nPixelx: nat, nPixely: nat, nSteps: nat, nTimeSamples: nat,
                      paImg: array<real>)
    returns (ghost visited: seq<nat>)
    requires nSteps * (nPixelx * nPixely) <= |idxAll|
    requires nSteps * (nPixelx * nPixely) <= |angularWeight|
    requires nPixelx * nPixely <= paImg.Length
    requires ReadsInBounds(|paData|, WrapAll(idxAll), nPixelx * nPixely, nSteps, nTimeSamples)
    modifies paImg
    ensures forall p :: 0 <= p < nPixelx * nPixely ==>
      paImg[p] == old(paImg[p])
                  + PixelSum(paData, WrapAll(idxAll), angularWeight, nPixelx * nPixely, nTimeSamples, p, nSteps)
    ensures forall p :: nPixelx * nPixely <= p < paImg.Length ==> paImg[p] == old(paImg[p])
    ensures |visited| == nSteps * (nPixelx * nPixely)
    ensures forall k :: 0 <= k < |visited| ==> visited[k] == k
  {
    ghost var P := nPixelx * nPixely;
    ghost var idx := WrapAll(idxAll);
    ghost var start := paImg[..];
    visited := [];
    var icount: nat := 0;
    for iStep := 0 to nSteps
      invariant icount == iStep * P
      invariant |visited| == icount && forall k :: 0 <= k < icount ==> visited[k] == k
      invariant forall p :: 0 <= p < P ==>
        paImg[p] == start[p] + PixelSum(paData, idx, angularWeight, P, nTimeSamples, p, iStep)
      invariant forall p :: P <= p < paImg.Length ==> paImg[p] == start[p]
    {
      MulRightMono(iStep + 1, nSteps, P);
      assert (iStep + 1) * P == iStep * P + P;
      ReadsInBoundsPrefix(|paData|, idx, P, nSteps, iStep, nTimeSamples);
      ReadsInBoundsPrefix(|paData|, idx, P, nSteps, iStep + 1, nTimeSamples);
      ghost var pass;
      icount, pass := AdvanceStep(paData, idxAll, Int32Wrap, angularWeight, nPixelx, nPixely,
                                  nTimeSamples, iStep, icount, paImg, start);
      visited := visited + pass;
    }
  }

  /** The element types numpy can report for an array argument. */
  datatype DType =
    | Bool | Int8 | Int16 | Int32 | Int64
    | UInt8 | UInt16 | UInt32 | UInt64
    | Float16 | Float32 | Float64 | LongDouble
    | Complex64 | Complex128

  /** `PyArray_ISFLOAT`: any real floating-point type. */
  predicate IsFloat(d: DType)
  {
    d.Float16? || d.Float32? || d.Float64? || d.LongDouble?
  }

  /** `PyArray_ISUNSIGNED`: any unsigned integer type. */
  predicate IsUnsigned(d: DType)
  {
    d.UInt8? || d.UInt16? || d.UInt32? || d.UInt64?
  }

  /** Bytes per element; the kernel reads 8-byte doubles and 8-byte
      unsigned longs. */
  function ItemSize(d: DType): nat
  {
    match d
    case Bool | Int8 | UInt8 => 1
    case Int16 | UInt16 | Float16 => 2
    case Int32 | UInt32 | Float32 => 4
    case Int64 | UInt64 | Float64 | Complex64 => 8
    case LongDouble | Complex128 => 16
  }

  /** What the extension learns about one numpy argument: its element
      type, whether it is Fortran-contiguous (NPY_ARRAY_FARRAY) and the
      length of its first dimension. */
  datatype ArrayArg = ArrayArg(dtype: DType, fortran: bool, rows: nat)

  /** The argument check of `recon_loop` as written. */
  predicate ArgsAccepted(pa: ArrayArg, idx: ArrayArg, aw: ArrayArg)
  {
    IsFloat(pa.dtype) && pa.fortran && IsUnsigned(idx.dtype) && idx.fortran && IsFloat(aw.dtype) && aw.fortran
  }

  /** The check the kernel needs: exactly the element types it reads. */
  predicate ArgsMatchKernel(pa: ArrayArg, idx: ArrayArg, aw: ArrayArg)
  {
    pa.dtype == Float64 && pa.fortran && idx.dtype == UInt64 && idx.fortran && aw.dtype == Float64 && aw.fortran
  }

  /** The check as written lets a float32 channel-data array through,
      although the kernel reads its memory as 8-byte doubles. */
  lemma AcceptedCheckAdmitsNarrowFloat()
    ensures var pa := ArrayArg(Float32, true, 1300);
            var idx := ArrayArg(UInt64, true, 400);
            var aw := ArrayArg(Float64, true, 400);
            ArgsAccepted(pa, idx, aw) && !ArgsMatchKernel(pa, idx, aw) && ItemSize(pa.dtype) != 8
  {
  }

  /** The corrected check admits only arguments whose elements have the
      width the kernel reads, and every such argument list passes the check
      as written. */
  lemma KernelCheckAdmitsOnlyKernelWidths(pa: ArrayArg, idx: ArrayArg, aw: ArrayArg)
    ensures ArgsMatchKernel(pa, idx, aw) ==>
      ArgsAccepted(pa, idx, aw) && ItemSize(pa.dtype) == 8 && ItemSize(idx.dtype) == 8 && ItemSize(aw.dtype) == 8
    ensures ArgsAccepted(pa, idx, aw) && ItemSize(pa.dtype) == 8 && ItemSize(idx.dtype) == 8 && ItemSize(aw.dtype) == 8
      ==> ArgsMatchKernel(pa, idx, aw)
  {
  }

  /** Element [x][y] of a Fortran-ordered (nx, ny) array. */
  function FortranIndex(x: nat, y: nat, nx: nat): nat
  {
    x + nx * y
  }

  /** The sizes and reads the kernel needs once the arguments pass. */
  predicate KernelCanRun(paData: seq<real>, pa: ArrayArg, idxAll: seq<nat>, angularWeight: seq<real>,
                         nPixelx: nat, nPixely: nat, nSteps: nat)
  {
    && nSteps * (nPixelx * nPixely) <= |idxAll|
    && nSteps * (nPixelx * nPixely) <= |angularWeight|
    && ReadsInBounds(|paData|, WrapAll(idxAll), nPixelx * nPixely, nSteps, pa.rows)
  }

  /** `recon_loop`: `None` unless the three arrays pass the check; otherwise a
      fresh zero-initialised Fortran (nPixelx, nPixely) image into which the
      kernel accumulates, with the first dimension of `pa_data` as column
      stride. The pixel values are stated for element types the kernel
      reads correctly. */
  method ReconLoop(paData: seq<real>, pa: ArrayArg, idxAll: seq<nat>, idx: ArrayArg,
                   angularWeight: seq<real>, aw: ArrayArg, nPixelx: nat, nPixely: nat, nSteps: nat)
    returns (img: Option<array<real>>)
    requires ArgsAccepted(pa, idx, aw) ==> KernelCanRun(paData, pa, idxAll, angularWeight, nPixelx, nPixely, nSteps)
    ensures img.None? <==> !ArgsAccepted(pa, idx, aw)
    ensures img.Some? ==> fresh(img.value) && img.value.Length == nPixelx * nPixely
    ensures img.Some? && ArgsMatchKernel(pa, idx, aw) ==>
      forall x: nat, y: nat :: x < nPixelx && y < nPixely ==>
        FortranIndex(x, y, nPixelx) < img.value.Length
        && img.value[FortranIndex(x, y, nPixelx)]
           == PixelSum(paData, WrapAll(idxAll), angularWeight, nPixelx * nPixely, pa.rows, y * nPixelx + x, nSteps)
  {
    if !ArgsAccepted(pa, idx, aw) {
      return None;
    }
    var paImg := new real[nPixelx * nPixely](_ => 0.0);
    ghost var visited := ReconLoopImp(paData, idxAll, angularWeight, nPixelx, nPixely, nSteps, pa.rows, paImg);
    forall x: nat, y: nat | x < nPixelx && y < nPixely
      ensures FortranIndex(x, y, nPixelx) == y * nPixelx + x < nPixelx * nPixely
    {
      RowMajorBound(y, x, nPixely, nPixelx);
    }
    return Some(paImg);
  }
}
