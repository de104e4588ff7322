# PACT data path: reconstruction kernel, DAQ decoder and unpack bookkeeping

A Dafny model of the numeric core of the PACT photoacoustic
reconstruction code. It has three parts.

- **Delay-and-sum accumulation.** `recon_loop_imp` in recon_loop_ext.c and
  its MATLAB twin old_codes/recon_loop.c walk a flat `steps x pixels` map.
  Each map entry holds a 1-based sample index and a weight. The kernel adds
  `pa_data[idx + nTimeSamples*step - 1] * weight` into every pixel.
  `recon_loop` first checks the numpy argument types, then allocates a
  zeroed Fortran-ordered image. Modules: `Backprojection` (what a pixel
  ends as, plus the shared pixel pass), `ReconLoopExt` and `ReconLoopMex`.
- **DAQ packet decoder.** `daq_loop_imp`/`daq_loop` in
  daq_loop_imp_c/daq_loop_imp.c and the fixed-size MATLAB version in
  old_codes/daq_loop.c.
  - Each 32-bit word carries three 10-bit samples.
  - Six packs per firing carry the 32 channels of a board.
  - Each trace has its mean removed and is divided by NumElements.
  - It is then scattered through a 1-based channel map. It is added into
    `chndata` and written negated into `chndata_all`.

  Modules: `DaqLayout` (bit fields and pack layout), `DaqSpec` (the decoder
  as a fold of scatter steps over values, with its lemmas), `DaqLoopImp`
  (the loops over a `raw_data[8][32][1300]` scratch array and the output
  arrays) and `DaqLoopMex`.
- **Unpack bookkeeping** in unpack_data.py. It covers:
  - the regular expressions and file names (`UnpackNames`);
  - `renameUnindexedFile` (`UnpackRename`);
  - the index plan of `read_channel_data` (`UnpackPlan`);
  - `readBinFile`, the 2600-row cut, the scaling, the bad-channel flips
    and the Fortran reshape (`UnpackArrays`).

  A directory listing is the list of names `os.listdir` returns. The
  directory after the renames is a set of names, and the second listing
  may give them in any order. A rename is a (source, destination) pair.

Samples, weights and means are `real`, so sums and divisions are exact.
Raw words are `bv32`. The C conversions are written out in `Common`:
`(int)` of a double truncates toward zero, and `(int)` of a 64-bit unsigned
keeps the low 32 bits as a signed number. Regular expressions follow
`re.match`: the pattern must match a prefix of the name, and a
`([0-9]+)` group gives digits back when the rest of the pattern fails.
`.` is any character.

## Model

| member | source | states |
|---|---|---|
| Backprojection.PixelSumIsSumOfContributions | recon_loop_ext.c:18-30 | a pixel's value is the sum over steps s of `pa_data[idx[s*P+p] + nTimeSamples*s - 1] * weight[s*P+p]` |
| Backprojection.PixelSumStep | recon_loop_ext.c:18-27 | one more step adds exactly that step's sample times weight to the pixel |
| Backprojection.ZeroWeightsGiveZero | recon_loop_ext.c:24-26 | with every weight zero, every pixel is zero, for any indices that keep every read in bounds |
| Backprojection.PixelSumDependsOnReadEntries | recon_loop_ext.c:17-28 | a pixel depends only on the first steps*pixels map entries, the ones the kernel reads |
| Backprojection.ReadsOwnColumn | recon_loop_ext.c:20-25 | a read at step s falls inside column s of the channel data iff its 1-based index lies in 1..nTimeSamples |
| Backprojection.IndicesInColumnsAreInBounds | recon_loop_ext.c:20-25 | indices in 1..nTimeSamples and data at least nSteps columns long make every read in bounds |
| Backprojection.ZeroIndexReadsBeforeData | recon_loop_test.py:8-9 | an all-zero index map makes the first read fall before the data |
| Backprojection.AccumulateStep | recon_loop_ext.c:19-29 | one pass adds each pixel's step term in flat order (x fastest), reads map entries icount..icount+P-1 once each, and leaves other cells unchanged |
| Backprojection.AdvanceStep | recon_loop_ext.c:18-30 | after a pass every pixel holds its start value plus the sum over one more step |
| ReconLoopExt.WrapAll | recon_loop_ext.c:25 | indices below 2^31 keep their value under the `(int)` cast |
| ReconLoopExt.ReconLoopImp | recon_loop_ext.c:9-31 | each pixel gains exactly its closed-form sum; cells beyond the image are untouched; map entries are read once each, in order 0..nSteps*P-1 |
| ReconLoopExt.AcceptedCheckAdmitsNarrowFloat | recon_loop_ext.c:64-73 | the check as written accepts a float32 `pa_data`, which the kernel reads as 8-byte doubles |
| ReconLoopExt.KernelCheckAdmitsOnlyKernelWidths | recon_loop_ext.c:64-79 | the corrected check accepts exactly the arguments the written check accepts whose element widths are the 8 bytes the kernel reads |
| ReconLoopExt.ReconLoop | recon_loop_ext.c:43-93 | None exactly when a type or Fortran-contiguity check fails; otherwise a fresh image of nPixelx*nPixely cells whose Fortran element [x][y] is pixel y*nPixelx+x, using the first dimension of `pa_data` as the stride |
| ReconLoopMex.TruncAll | old_codes/recon_loop.c:26 | every index is the double truncated toward zero: the same sign, and the largest whole number not exceeding it in magnitude |
| ReconLoopMex.MexReconLoop | old_codes/recon_loop.c:17-30 | a fresh zeroed Npixel_y*Npixel_x image, each pixel its sum with stride 1301; map entries are read once each, in order |
| ReconLoopMex.MexMatchesExt | old_codes/recon_loop.c:23-26 | on the same index map (doubles there, unsigned below 2^31 here), the MEX kernel and `recon_loop_imp` with nTimeSamples 1301 give the same pixels |
| DaqLayout.Field | daq_loop_imp_c/daq_loop_imp.c:28-34 | every decoded sample lies in 0..1023 |
| DaqLayout.FieldsRecompose | daq_loop_imp_c/daq_loop_imp.c:28-34 | the three samples are bits 0-9, 10-19 and 20-29 of the word, side by side |
| DaqLayout.TopBitsIgnored | daq_loop_imp_c/daq_loop_imp.c:28-34 | bits 30-31 reach no sample |
| DaqLayout.SignedShiftKeepsMiddleField | daq_loop_imp_c/daq_loop_imp.c:30-31 | shifting the word as a signed int gives the same middle sample |
| DaqLayout.SignedShiftKeepsTopField | daq_loop_imp_c/daq_loop_imp.c:33-34 | shifting the word as a signed int gives the same top sample |
| DaqLayout.PacksFillBoard | daq_loop_imp_c/daq_loop_imp.c:26-41 | the packs start at channels 0, 6, 12, 16, 22, 28 and end at 32 |
| DaqLayout.PackOf | daq_loop_imp_c/daq_loop_imp.c:26-41 | every channel 0..31 lies in exactly one pack's range |
| DaqLayout.PackOfInverse | daq_loop_imp_c/daq_loop_imp.c:26-41 | each (pack, offset) is a distinct channel carried by that pack, so each channel is written once per firing |
| DaqLayout.LaneAndSlotInPack | daq_loop_imp_c/daq_loop_imp.c:28-35 | offset `off` of a pack is sample off/2 of the even (off even) or odd (off odd) word |
| DaqLayout.LaneAndSlotOfChannel | daq_loop_imp_c/daq_loop_imp.c:32-35 | the third sample of a word is used only by six-channel packs |
| DaqSpec.PackInBoard | daq_loop_imp_c/daq_loop_imp.c:22-28 | every pack read lies below NumExperiments*TotFirings*6*2*DataBlockSize words |
| DaqSpec.RawTraceInPack | daq_loop_imp_c/daq_loop_imp.c:26-35 | sample j of channel `start+off` is sample off/2 of word `counter*2*DBS + 2j + off%2` |
| DaqSpec.RawTrace | daq_loop_imp_c/daq_loop_imp.c:28-34 | every raw sample lies in 0..1023 |
| DaqSpec.CenteredSumsToZero | daq_loop_imp_c/daq_loop_imp.c:46-51 | a trace with its mean removed and divided by NumElements sums to zero |
| DaqSpec.CenteredIgnoresOffset | daq_loop_imp_c/daq_loop_imp.c:46-51 | mean removal cancels any constant offset of the samples |
| DaqSpec.ChanMapIndexUniqueWithEightFirings | daq_loop_imp_c/daq_loop_imp.c:53 | with TotFirings 8, distinct (board, channel, firing) triples read distinct map entries |
| DaqSpec.ChanMapIndexCollidesWithFourFirings | daq_loop_imp_c/daq_loop_imp.c:53 | with TotFirings 4, the hard-coded stride 8 makes two triples share entry 128 |
| DaqSpec.DestsInRangeScatterInBounds | daq_loop_imp_c/daq_loop_imp.c:53-57 | destinations in 0..NumElements-1 keep every write inside buffers of NumElements and NumExperiments*NumElements traces |
| DaqSpec.Decode | daq_loop_imp_c/daq_loop_imp.c:19-45 | every step number below the step count is the number of some loop position |
| DaqSpec.EncodeInjective | daq_loop_imp_c/daq_loop_imp.c:19-45 | distinct loop positions get distinct step numbers |
| DaqSpec.DecodeEncode | daq_loop_imp_c/daq_loop_imp.c:19-45 | decoding a position's step number gives the position back |
| DaqSpec.StepsLength | daq_loop_imp_c/daq_loop_imp.c:19-45 | the loops make one scatter step per (board, experiment, channel, firing) |
| DaqSpec.StepsAt | daq_loop_imp_c/daq_loop_imp.c:19-45 | the step at a position's number is that position's step |
| DaqSpec.AllJobsAt | daq_loop_imp_c/daq_loop_imp.c:44-57 | the decoder's step list holds, at each position's number, the scatter of that position's centred trace |
| DaqSpec.ApplyJobsAppend | daq_loop_imp_c/daq_loop_imp.c:19-61 | running two lists of steps one after the other is running their concatenation |
| DaqSpec.ApplyJobsStoreNegatedTrace | daq_loop_imp_c/daq_loop_imp.c:56 | with distinct destinations, each step's part of `chndata_all` ends as its negated trace |
| DaqSpec.ApplyJobsKeepOtherSlot | daq_loop_imp_c/daq_loop_imp.c:56 | steps writing elsewhere leave a part of `chndata_all` unchanged |
| DaqSpec.ApplyJobsKeepConsistent | daq_loop_imp_c/daq_loop_imp.c:54-57 | steps into distinct, still-zero parts keep chndata == -(sum over N of chndata_all) |
| DaqSpec.SlotIndexUnique | daq_loop_imp_c/daq_loop_imp.c:56 | `(N*NumElements+c)*DBS+i` determines N, c and i |
| DaqSpec.AllJobsDistinct | daq_loop_imp_c/daq_loop_imp.c:53-57 | an injective map in range sends the decoder's steps to distinct parts, inside the buffers |
| DaqSpec.DecoderConsistent | daq_loop_imp_c/daq_loop_imp.c:54-57 | from zeroed buffers with an injective map, chndata[c][i] == -(sum over N of chndata_all[N][c][i]) |
| DaqSpec.DecoderStoresNegatedTraces | daq_loop_imp_c/daq_loop_imp.c:46-56 | under the same conditions, chndata_all[N][Dest] holds the negated centred trace of the mapped channel and firing |
| DaqLoopImp.DecodeWordPair | daq_loop_imp_c/daq_loop_imp.c:28-35 | the signed-int shifts and masks give the three fields of the even and the odd word |
| DaqLoopImp.UnpackSamplePair | daq_loop_imp_c/daq_loop_imp.c:27-36 | one sample position fills the pack's channels from the even/odd words; nothing else changes |
| DaqLoopImp.UnpackPack | daq_loop_imp_c/daq_loop_imp.c:26-41 | a pack fills its channels for every sample position; nothing else changes |
| DaqLoopImp.UnpackFiring | daq_loop_imp_c/daq_loop_imp.c:25-41 | after a firing's six packs, channels 0..31 of `raw_data[f]` hold the raw traces and `counter` has advanced by 6 |
| DaqLoopImp.UnpackExperiment | daq_loop_imp_c/daq_loop_imp.c:25-42 | after the firing loop, every firing's channels hold their raw traces |
| DaqLoopImp.RowMean | daq_loop_imp_c/daq_loop_imp.c:46-49 | `mean_data` is the sum of the trace divided by its length |
| DaqLoopImp.CenterTrace | daq_loop_imp_c/daq_loop_imp.c:50-51 | the trace is replaced by its centred, scaled version; the rest of `raw_data` is kept |
| DaqLoopImp.ScatterSample | daq_loop_imp_c/daq_loop_imp.c:55-56 | one `+=` into `chndata` and one negated write into `chndata_all` |
| DaqLoopImp.ScatterTrace | daq_loop_imp_c/daq_loop_imp.c:54-57 | the scatter loop performs exactly one scatter step |
| DaqLoopImp.ProcessTrace | daq_loop_imp_c/daq_loop_imp.c:46-57 | mean removal, map lookup and scatter perform the step of that loop position |
| DaqLoopImp.ProcessChannel | daq_loop_imp_c/daq_loop_imp.c:45-58 | the firing loop performs that channel's steps in order |
| DaqLoopImp.ProcessExperiment | daq_loop_imp_c/daq_loop_imp.c:44-59 | the channel loop performs the experiment's steps in order |
| DaqLoopImp.DecodeExperiment | daq_loop_imp_c/daq_loop_imp.c:24-60 | one experiment extends the board's steps by its own |
| DaqLoopImp.ProcessBoard | daq_loop_imp_c/daq_loop_imp.c:20-60 | a board, with `counter` reset, performs its steps in order |
| DaqLoopImp.DaqLoopImp | daq_loop_imp_c/daq_loop_imp.c:4-62 | the outputs end as every scatter step, in loop order, applied to what they held |
| DaqLoopImp.DaqLoop | daq_loop_imp_c/daq_loop_imp.c:64-80 | forwards board 1 then board 2 and ignores the size arguments |
| DaqLoopMex.MexLayout | old_codes/daq_loop.c:14-18 | sizes 1300, 512, 8 and 32, which fit the scratch buffer |
| DaqLoopMex.IntBits | old_codes/daq_loop.c:39-45 | `(int)` of a double gives its truncation modulo 2^32 |
| DaqLoopMex.DoublesToWordsOfWords | old_codes/daq_loop.c:39-45 | words below 2^31 passed as doubles convert back to themselves |
| DaqLoopMex.MexDaqLoop | old_codes/daq_loop.c:3-73 | zeroed 1300x512 and 1300x(NumExperiments*512) outputs end as `daq_loop_imp`'s steps applied to zero; with an injective map chndata == -(sum over N of chndata_all) |
| UnpackNames.NatToStr | unpack_data.py:107-109 | `str(n)` is a non-empty string of digits |
| UnpackNames.DigitsValueOfNatToStr | unpack_data.py:31 | `int(str(n)) == n` |
| UnpackNames.IntToStrInjective | unpack_data.py:107-109 | `str` is injective, so names of distinct indices differ |
| UnpackNames.MatchGroups | unpack_data.py:19-21 | a text made of a pattern's literals and numbers is matched by the pattern, each group capturing its number |
| UnpackNames.MatchGroupsNone | unpack_data.py:17-18 | when the rest of the pattern fails after the last number, no backtracking of the groups helps |
| UnpackNames.TargetNameMatches | unpack_data.py:17-18 | every unindexed board name is recognised by `pTarget` |
| UnpackNames.IndexedNameMatches | unpack_data.py:19-21 | every indexed board name is matched by `pExisting` with its index as group 4 |
| UnpackNames.IndexedNotTarget | unpack_data.py:26 | an indexed name is never taken for an unindexed one |
| UnpackNames.DropLast4 | unpack_data.py:40 | on a name of at least four characters, the result followed by the last four characters is the name again; a shorter name gives the empty string |
| UnpackNames.RenameTargetName | unpack_data.py:40 | the destination of an unindexed name is the indexed name of the same board, experiment and firing count, and `pExisting` reads back the new index |
| UnpackNames.RenameDestOfPath | unpack_data.py:39-40 | renaming a path changes only its file-name part |
| UnpackNames.BoardFileNameMatches | unpack_data.py:87-109 | the file opened for board `Board<k>` is found by the search for its index, with its experiment number as group 2 |
| UnpackNames.IndexedNameIsBoardFileName | unpack_data.py:107-109 | a renamed board file is exactly the name the reader builds for that board, experiment and index |
| UnpackNames.GroupCounts | unpack_data.py:19-21 | `pExisting` has four groups, the search pattern two |
| UnpackRename.RenameDestJoin | unpack_data.py:39-40 | for a relative name, the renamed path is the renamed name in the same directory |
| UnpackRename.MaxOf | unpack_data.py:37 | `max` returns an element that is at least every element |
| UnpackRename.TargetsSpec | unpack_data.py:25-27 | `targetFileList` holds exactly the listed names that `pTarget` matches |
| UnpackRename.IndicesSpec | unpack_data.py:28-31 | `indexList` holds exactly the group-4 indices of the other names `pExisting` matches |
| UnpackRename.RenameIndexSpec | unpack_data.py:33-45 | -1 iff no unindexed name; ValueError iff unindexed names but no indexed one; otherwise above every existing index and one more than one of them |
| UnpackRename.RenamePairsSpec | unpack_data.py:38-43 | the k-th rename moves the k-th unindexed file to its path with `_<idx>` before `.bin` |
| UnpackRename.ScanDirectory | unpack_data.py:23-31 | the scan loop builds the unindexed list and the index list |
| UnpackRename.RenameAll | unpack_data.py:38-43 | the rename loop makes one rename per unindexed file, in order |
| UnpackRename.RenameUnindexedFile | unpack_data.py:15-45 | returns -1, ValueError or max+1 as above, and renames all unindexed files with that same index, or nothing |
| UnpackRename.DaqFileRenamed | unpack_data.py:37-43 | an unindexed DAQ file is renamed in its directory to its indexed name, which is in the directory afterwards and which the next scan reads back with the new index |
| UnpackRename.RenamedDirKeeps | unpack_data.py:37-43 | a name that no rename moves is still in the directory afterwards |
| UnpackRename.RenamedDirAdds | unpack_data.py:37-43 | a renamed file is found under its new name, unless a later rename moves that name again |
| UnpackRename.RenamedDirFrom | unpack_data.py:37-43 | every name after the renames was there before and was not moved, or is the new name of a moved file; a rename onto an existing name replaces it |
| UnpackRename.RenameTwiceFindsNothing | unpack_data.py:25-35 | after the rename, a second call on any listing of the renamed directory finds no unindexed file and returns -1 |
| UnpackPlan.FindExperiment | unpack_data.py:91-100 | the loop leaves `numExpr` as the last match's experiment number, or -1 |
| UnpackPlan.LastSomeSpec | unpack_data.py:92-100 | keeping the latest value settles on one after which none is present, and on nothing iff none is present |
| UnpackPlan.LastExperimentSpec | unpack_data.py:92-101 | the experiment number comes from the last matching file; -1 iff no file matches |
| UnpackPlan.BoardFilePaths | unpack_data.py:105-110 | the board loop builds `Join(srcDir, BoardName + 'Experiment' + ... + '.bin')` for each board in order |
| UnpackPlan.ProcessIndex | unpack_data.py:87-110 | an index is skipped when nothing matches; otherwise it yields its experiment number and board files |
| UnpackPlan.ProcessRange | unpack_data.py:83-110 | the loop over range(start, end+1) yields the items of the indices not skipped, in order |
| UnpackPlan.ReadChannelPlan | unpack_data.py:74-110 | a -1 start or end renames first, then returns early on -1, propagates ValueError, or processes just the new index in the second listing, taken as a parameter in any order of the renamed directory; otherwise it processes start..end |
| UnpackPlan.ItemsSpec | unpack_data.py:83-110 | processed indices lie in range(start, end+1) in increasing order, each with the last match's experiment number and one file per board |
| UnpackPlan.ItemsCover | unpack_data.py:83-104 | every index in range with a matching file is processed |
| UnpackPlan.IndexedNameFound | unpack_data.py:87-95 | the search for an index finds a renamed file of that index, with its experiment number |
| UnpackPlan.FreshIndexProcessed | unpack_data.py:74-110 | with a -1 start or end and an unindexed DAQ file, for every order of the second listing exactly the new index is processed, and the renamed file is read when the search settles on its experiment number |
| UnpackArrays.ReadBinFileShape | unpack_data.py:52-54 | Ok iff the file holds exactly 6*totFirings*numExpr packs of packSize words; then a packSize-row matrix whose column r is the r-th run of packSize consecutive words |
| UnpackArrays.ReadBinFileRoundTrip | unpack_data.py:54 | reading the transposed matrix in column-major order gives back the file's words |
| UnpackArrays.KeepRows | unpack_data.py:114 | `[0:2600, :]` keeps the first min(2600, rows) rows unchanged |
| UnpackArrays.KeptRowsAreFileWords | unpack_data.py:111-115 | the decoder's word `r*2600 + w` of the cut board matrix is word w of pack r of the file |
| UnpackArrays.ColumnOfSpec | unpack_data.py:129-131 | channel numbers 1..n address columns 0..n-1, and 1-n..0 wrap to the same columns |
| UnpackArrays.FlippedColumnsSpec | unpack_data.py:129-131 | only columns 0..n-1 are flipped, and column j is flipped iff channel j+1 or its wrapped negative number j+1-n is listed |
| UnpackArrays.ScaleNegated | unpack_data.py:128 | a new matrix with entries -chnData/numExpr |
| UnpackArrays.NegateColumn | unpack_data.py:131 | negates one column in place, keeps the others |
| UnpackArrays.FlipColumns | unpack_data.py:129-131 | IndexError with nothing changed for a channel outside the columns; otherwise addressed columns are negated once and the others are unchanged |
| UnpackArrays.ReshapeFortran | unpack_data.py:132-135 | ValueError unless the sizes agree; otherwise [i, c, N] == flat[i + d0*(c + d1*N)] |
| UnpackArrays.ReshapeMatchesDecoder | unpack_data.py:132-135 | the reshape puts the decoder's `chndata_all[(N*NumElements+c)*DBS+i]` at [i, c, N] |
| UnpackArrays.NegateSlice | unpack_data.py:136 | negates `a[:, c, :]` in place, keeps the rest |
| UnpackArrays.FlipAxis1 | unpack_data.py:136 | the same flip on the element axis of every experiment, or IndexError with nothing changed |
| UnpackArrays.FixChannelData | unpack_data.py:127-136 | the scaled and flipped `chnData` and the reshaped and flipped `chnDataAll`, or the first exception raised, in the script's order |
| UnpackArrays.AxisSumOfFlipped | unpack_data.py:136 | summing a flipped experiment axis flips the sum |
| UnpackArrays.ChannelDataIsExperimentMean | unpack_data.py:128-136 | after a consistent decoder run, chnData[i, c] is the mean over experiments of chnDataAll[i, c, :], flipped channels included |

## Left out

- Floating point: samples, weights, means and divisions are exact reals. IEEE rounding is not modelled.
- Out-of-bounds reads and writes are undefined behaviour in C, and the kernels check nothing. In-bounds access is therefore a precondition: `ReadsInBounds`, `WellFormed`, `ScatterInBounds` and `FitsScratch`. The lemmas say when the preconditions hold.
- C `int` overflow of the counters and index products is not modelled. Sizes are `nat`, so negative size arguments are not modelled either.
- DaqLoopMex.MexDaqLoop: requires each pack double to fit in an `int` (`FitsInt`), because `(int)` of a larger double is undefined in C. The MATLAB scalar conversions of the inputs (`mxGetScalar`) are not modelled.
- ReconLoopExt.ReconLoop: states the pixel values only for argument types the kernel reads correctly (float64, uint64). With narrower types the kernel reinterprets memory, which the model does not capture (see Findings).
- The Python/C API plumbing is left out. This covers `PyArg_ParseTuple`, the reference count of the returned `Py_None`, `printf` and module init. A failed parse and a failed check both return None.
- `find_index_map_and_angular_weight` has an empty body in recon_loop_ext.c, so there is nothing to model.
- Aliasing between the input and output buffers is not modelled. Read-only inputs are sequences, and `chndata` and `chndata_all` are distinct arrays.
- File system:
  - each `os.listdir` result is a parameter (a list of names); the listing after the renames is any list of the names of the renamed directory, so which experiment number the search keeps when several match is left open;
  - every `os.rename` is assumed to succeed, and the renames are returned as a list;
  - `open` and `np.fromfile` are left out. `ReadBinFile` takes the file's elements already read with the configured dtype.
  - the `f == None` branch of `readBinFile` is unreachable in Python and is not modelled.
- `notifyCli` output, the timing around `daq_loop`, and `saveChnData` (HDF5 output) are left out.
- `unpack_speedup` (the Cython `daq_loop` wrapper and `generateChanMap`) is not part of this model. The link from the cut board matrices to the C decoder assumes the wrapper passes them in column-major order (`KeptRowsAreFileWords`).
- The numpy reshape is modelled as a copy, not as a view sharing memory with `chnDataAll`.
- UnpackPlan.BoardFiles: takes the board names already cut to `NumBoards` entries. The `IndexError` for a `BoardName` list shorter than `NumBoards` is not modelled. Only the first two boards reach `daq_loop`.
- UnpackArrays.ScaleNegated: requires `numExpr > 0`. With a zero experiment count numpy yields inf/nan, which exact reals cannot express.
- UnpackArrays.FixChannelData: requires `numExpr > 0`, for the same reason.

## Findings

| source | as written | input that shows it | evidently intended | confidence | as-written member | corrected member |
|---|---|---|---|---|---|---|
| recon_loop_ext.c:64-69 | `PyArray_ISFLOAT` and `PyArray_ISUNSIGNED` accept a floating or unsigned array of any width | a Fortran-ordered float32 `pa_data` with float64 weights and uint64 indices passes the check; the kernel then reads its 4-byte elements as 8-byte doubles | accept only float64 `pa_data`/`angularWeight` and uint64 `idxAll`, the types the kernel reads (the comments at lines 35-37 say so) | high, not executed | ReconLoopExt.AcceptedCheckAdmitsNarrowFloat | ReconLoopExt.KernelCheckAdmitsOnlyKernelWidths |
