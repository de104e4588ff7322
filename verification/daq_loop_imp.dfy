/** The DAQ decoder `daq_loop_imp` and its wrapper `daq_loop`
    (daq_loop_imp_c/daq_loop_imp.c), written as the C code runs: a scratch
    buffer `raw_data[8][32][1300]` filled in place, traces centred in
    place, and the two output buffers updated element by element. Each
    method is proved against the value-level description in `DaqSpec`. */
module DaqLoopImp {
  import opened Common
  import opened DaqLayout
  import opened DaqSpec

  /** Samples `0 .. n-1` of `raw_data[f][ch]`. */
  function Row(rawData: array3<real>, f: nat, ch: nat, n: nat): (r: seq<real>)
    requires f < rawData.Length0 && ch < rawData.Length1 && n <= rawData.Length2
    reads rawData
    ensures |r| == n
  {
    seq(n, j requires 0 <= j < n reads rawData => rawData[f, ch, j])
  }

  /** The six samples of an (even, odd) word pair, computed as the C code
      does: the word cast to a signed int, shifted and masked. */
  method DecodeWordPair(even: bv32, odd: bv32) returns (s0: real, s1: real, s2: real, s3: real, s4: real, s5: real)
    ensures s0 == Field(even, 0) as real && s1 == Field(odd, 0) as real
    ensures s2 == Field(even, 1) as real && s3 == Field(odd, 1) as real
    ensures s4 == Field(even, 2) as real && s5 == Field(odd, 2) as real
  {
    SignedShiftKeepsMiddleField(even);
    SignedShiftKeepsMiddleField(odd);
    SignedShiftKeepsTopField(even);
    SignedShiftKeepsTopField(odd);
    s0 := ((even & SAMPLE_MASK) as int) as real;
    s1 := ((odd & SAMPLE_MASK) as int) as real;
    s2 := ((ArithShiftRight(even, 10) & SAMPLE_MASK) as int) as real;
    s3 := ((ArithShiftRight(odd, 10) & SAMPLE_MASK) as int) as real;
    s4 := ((ArithShiftRight(even, 20) & SAMPLE_MASK) as int) as real;
    s5 := ((ArithShiftRight(odd, 20) & SAMPLE_MASK) as int) as real;
  }

  /** The six samples of a word pair, read back by pack offset: the
      channel at offset `off` is sample `off / 2` of word `off % 2`. */
  lemma PairByOffset(rawData: array3<real>, words: seq<bv32>, base: nat, j: nat, f: nat, i: nat, channel: nat)
    requires i < PACKS && channel + PackWidth(i) <= BOARD_CHANNELS
    requires f < rawData.Length0 && rawData.Length1 == BOARD_CHANNELS && j < rawData.Length2
    requires base + j * 2 + 1 < |words|
    requires rawData[f, channel, j] == Field(words[base + j * 2], 0) as real
    requires rawData[f, channel + 1, j] == Field(words[base + j * 2 + 1], 0) as real
    requires rawData[f, channel + 2, j] == Field(words[base + j * 2], 1) as real
    requires rawData[f, channel + 3, j] == Field(words[base + j * 2 + 1], 1) as real
    requires PackWidth(i) == 6 ==> rawData[f, channel + 4, j] == Field(words[base + j * 2], 2) as real
    requires PackWidth(i) == 6 ==> rawData[f, channel + 5, j] == Field(words[base + j * 2 + 1], 2) as real
    ensures forall c :: channel <= c < channel + PackWidth(i) ==>
      rawData[f, c, j] == Field(words[base + j * 2 + (c - channel) % 2], (c - channel) / 2) as real
  {
    forall c | channel <= c < channel + PackWidth(i)
      ensures rawData[f, c, j] == Field(words[base + j * 2 + (c - channel) % 2], (c - channel) / 2) as real
    {
      var off := c - channel;
      if off == 0 {
        assert off % 2 == 0 && off / 2 == 0 && c == channel;
      } else if off == 1 {
        assert off % 2 == 1 && off / 2 == 0 && c == channel + 1;
      } else if off == 2 {
        assert off % 2 == 0 && off / 2 == 1 && c == channel + 2;
      } else if off == 3 {
        assert off % 2 == 1 && off / 2 == 1 && c == channel + 3;
      } else if off == 4 {
        assert off % 2 == 0 && off / 2 == 2 && c == channel + 4;
      } else {
        assert off % 2 == 1 && off / 2 == 2 && c == channel + 5;
      }
    }
  }

  /** Sample position `j` of pack `i`: the even word `words[base + 2j]`
      and the odd word `words[base + 2j + 1]` give the pack's channels of
      `raw_data[f]`, the even word those at even offsets; packs 2 and 5
      leave the third sample of each word unused. */
  method UnpackSamplePair(words: seq<bv32>, base: nat, j: nat, f: nat, i: nat, channel: nat,
                          rawData: array3<real>)
    requires i < PACKS && channel + PackWidth(i) <= BOARD_CHANNELS
    requires f < rawData.Length0 && rawData.Length1 == BOARD_CHANNELS && j < rawData.Length2
    requires base + j * 2 + 1 < |words|
    modifies rawData
    ensures forall c :: channel <= c < channel + PackWidth(i) ==>
      rawData[f, c, j] == Field(words[base + j * 2 + (c - channel) % 2], (c - channel) / 2) as real
    ensures forall f', c, j' ::
      (0 <= f' < rawData.Length0 && 0 <= c < rawData.Length1 && 0 <= j' < rawData.Length2
       && !(f' == f && channel <= c < channel + PackWidth(i) && j' == j))
      ==> rawData[f', c, j'] == old(rawData[f', c, j'])
  {
    var s0, s1, s2, s3, s4, s5 := DecodeWordPair(words[base + j * 2], words[base + j * 2 + 1]);
    rawData[f, channel, j] := s0;
    rawData[f, channel + 1, j] := s1;
    rawData[f, channel + 2, j] := s2;
    rawData[f, channel + 3, j] := s3;
    if i != 2 && i != 5 {
      rawData[f, channel + 4, j] := s4;
      rawData[f, channel + 5, j] := s5;
    }
    PairByOffset(rawData, words, base, j, f, i, channel);
  }

  /** Pack `i` of firing `f`: its channels of `raw_data[f]` for every
      sample position; the channel at offset `off` of the pack is sample
      `off / 2` of word `off % 2` of its position. */
  method UnpackPack(words: seq<bv32>, base: nat, dataBlockSize: nat, f: nat, i: nat, channel: nat,
                    rawData: array3<real>)
    requires i < PACKS && channel + PackWidth(i) <= BOARD_CHANNELS
    requires f < rawData.Length0 && rawData.Length1 == BOARD_CHANNELS && dataBlockSize <= rawData.Length2
    requires base + 2 * dataBlockSize <= |words|
    modifies rawData
    ensures forall c, j :: channel <= c < channel + PackWidth(i) && 0 <= j < dataBlockSize ==>
      rawData[f, c, j] == Field(words[base + j * 2 + (c - channel) % 2], (c - channel) / 2) as real
    ensures forall f', c, j ::
      (0 <= f' < rawData.Length0 && 0 <= c < rawData.Length1 && 0 <= j < rawData.Length2
       && !(f' == f && channel <= c < channel + PackWidth(i) && j < dataBlockSize))
      ==> rawData[f', c, j] == old(rawData[f', c, j])
  {
    for j := 0 to dataBlockSize
      invariant forall c, j' :: channel <= c < channel + PackWidth(i) && 0 <= j' < j ==>
        rawData[f, c, j'] == Field(words[base + j' * 2 + (c - channel) % 2], (c - channel) / 2) as real
      invariant forall f', c, j' ::
        (0 <= f' < rawData.Length0 && 0 <= c < rawData.Length1 && 0 <= j' < rawData.Length2
         && !(f' == f && channel <= c < channel + PackWidth(i) && j' < j))
        ==> rawData[f', c, j'] == old(rawData[f', c, j'])
    {
      UnpackSamplePair(words, base, j, f, i, channel, rawData);
    }
  }

  /** The pack loop for firing `f` of experiment `n` of one board: the six
      packs in order, `channel` growing by each pack's width and `counter`
      advancing once per pack. Afterwards channels 0 .. 31 of `raw_data[f]`
      hold the firing's raw traces. */
  method UnpackFiring(L: Layout, words: seq<bv32>, n: nat, f: nat, counter0: nat, rawData: array3<real>)
    returns (counter: nat)
    requires n < L.numExperiments && f < L.totFirings && FitsScratch(L) && BoardWords(L) <= |words|
    requires counter0 == Counter(L, n, f, 0)
    requires rawData.Length0 == 8 && rawData.Length1 == BOARD_CHANNELS && rawData.Length2 == 1300
    modifies rawData
    ensures counter == Counter(L, n, f + 1, 0)
    ensures forall ch, j :: 0 <= ch < BOARD_CHANNELS && 0 <= j < L.dataBlockSize ==>
      rawData[f, ch, j] == RawTrace(L, words, n, f, ch)[j]
    ensures forall f', c, j :: 0 <= f' < 8 && f' != f && 0 <= c < BOARD_CHANNELS && 0 <= j < 1300 ==>
      rawData[f', c, j] == old(rawData[f', c, j])
  {
    counter := counter0;
    var channel := 0;
    for i := 0 to PACKS
      invariant channel == PackStart(i) && counter == Counter(L, n, f, i)
      invariant forall ch, j :: 0 <= ch < channel && 0 <= j < L.dataBlockSize ==>
        rawData[f, ch, j] == RawTrace(L, words, n, f, ch)[j]
      invariant forall f', c, j :: 0 <= f' < 8 && f' != f && 0 <= c < BOARD_CHANNELS && 0 <= j < 1300 ==>
        rawData[f', c, j] == old(rawData[f', c, j])
    {
      PacksFillBoard();
      PackInBoard(L, n, f, i);
      label before:
      UnpackPack(words, counter * 2 * L.dataBlockSize, L.dataBlockSize, f, i, channel, rawData);
      forall ch, j | 0 <= ch < channel + PackWidth(i) && 0 <= j < L.dataBlockSize
        ensures rawData[f, ch, j] == RawTrace(L, words, n, f, ch)[j]
      {
        if ch < channel {
          assert rawData[f, ch, j] == old@before(rawData[f, ch, j]);
        } else {
          RawTraceInPack(L, words, n, f, i, ch - channel, j);
        }
      }
      if i != 2 && i != 5 {
        channel := channel + 6;
      } else {
        channel := channel + 4;
      }
      counter := counter + 1;
    }
    PacksFillBoard();
  }

  /** The unpacking loops for experiment `n` of one board, firing by
      firing. Afterwards channels 0 .. 31 of `raw_data[f]` hold the raw
      traces of every firing `f`. */
  method UnpackExperiment(L: Layout, words: seq<bv32>, n: nat, counter0: nat, rawData: array3<real>)
    returns (counter: nat)
    requires n < L.numExperiments && FitsScratch(L) && BoardWords(L) <= |words|
    requires counter0 == Counter(L, n, 0, 0)
    requires rawData.Length0 == 8 && rawData.Length1 == BOARD_CHANNELS && rawData.Length2 == 1300
    modifies rawData
    ensures counter == Counter(L, n + 1, 0, 0)
    ensures forall f, ch, j :: 0 <= f < L.totFirings && 0 <= ch < BOARD_CHANNELS && 0 <= j < L.dataBlockSize ==>
      rawData[f, ch, j] == RawTrace(L, words, n, f, ch)[j]
  {
    counter := counter0;
    for f := 0 to L.totFirings
      invariant counter == Counter(L, n, f, 0)
      invariant forall f', ch, j :: 0 <= f' < f && 0 <= ch < BOARD_CHANNELS && 0 <= j < L.dataBlockSize ==>
        rawData[f', ch, j] == RawTrace(L, words, n, f', ch)[j]
    {
      counter := UnpackFiring(L, words, n, f, counter, rawData);
    }
    assert (n + 1) * L.totFirings == n * L.totFirings + L.totFirings;
  }

  /** The `mean_data` loop: the samples of `raw_data[f][ch]` summed in
      order, then divided by the trace length. */
  method RowMean(rawData: array3<real>, f: nat, ch: nat, dataBlockSize: nat) returns (mean: real)
    requires f < rawData.Length0 && ch < rawData.Length1 && dataBlockSize <= rawData.Length2
    ensures mean == Mean(Row(rawData, f, ch, dataBlockSize))
  {
    ghost var t := Row(rawData, f, ch, dataBlockSize);
    mean := 0.0;
    for i := 0 to dataBlockSize
      invariant mean == Sum(t[..i])
    {
      assert t[..i + 1][..i] == t[..i];
      mean := mean + rawData[f, ch, i];
    }
    assert t[..dataBlockSize] == t;
    // With no samples the C division is 0/0; no later statement reads it.
    if dataBlockSize > 0 {
      mean := mean / dataBlockSize as real;
    }
  }

  /** Mean removal for `raw_data[f][ch]`: each sample replaced in place by
      its difference from the mean divided by NumElements. */
  method CenterTrace(rawData: array3<real>, f: nat, ch: nat, dataBlockSize: nat, numElements: nat)
    requires f < rawData.Length0 && ch < rawData.Length1 && dataBlockSize <= rawData.Length2
    requires numElements > 0
    modifies rawData
    ensures Row(rawData, f, ch, dataBlockSize) == Centered(old(Row(rawData, f, ch, dataBlockSize)), numElements)
    ensures forall f', c, j ::
      (0 <= f' < rawData.Length0 && 0 <= c < rawData.Length1 && 0 <= j < rawData.Length2
       && !(f' == f && c == ch && j < dataBlockSize))
      ==> rawData[f', c, j] == old(rawData[f', c, j])
  {
    ghost var t := Row(rawData, f, ch, dataBlockSize);
    var mean := RowMean(rawData, f, ch, dataBlockSize);
    for i := 0 to dataBlockSize
      invariant forall j :: 0 <= j < i ==> rawData[f, ch, j] == (t[j] - mean) / numElements as real
      invariant forall j :: i <= j < dataBlockSize ==> rawData[f, ch, j] == t[j]
      invariant forall f', c, j ::
        (0 <= f' < rawData.Length0 && 0 <= c < rawData.Length1 && 0 <= j < rawData.Length2
         && !(f' == f && c == ch && j < dataBlockSize))
        ==> rawData[f', c, j] == old(rawData[f', c, j])
    {
      rawData[f, ch, i] := (rawData[f, ch, i] - mean) / numElements as real;
    }
  }

  /** The two output buffers as `DaqSpec` sees them. */
  function Outputs(chndata: array<real>, chndataAll: array<real>): Buffers
    reads chndata, chndataAll
  {
    Buffers(chndata[..], chndataAll[..])
  }

  /** One sample of the scatter: `chndata[k] += x` and `chndata_all[kAll] = -x`. */
  method ScatterSample(chndata: array<real>, k: nat, chndataAll: array<real>, kAll: nat, x: real)
    requires chndata != chndataAll && k < chndata.Length && kAll < chndataAll.Length
    modifies chndata, chndataAll
    ensures chndata[..] == old(chndata[..])[k := old(chndata[k]) + x]
    ensures chndataAll[..] == old(chndataAll[..])[kAll := -x]
  {
    chndata[k] := chndata[k] + x;
    chndataAll[kAll] := -x;
  }

  /** Sample `i` of the scatter, extending the written prefix of `t`. */
  method ScatterStep(chndata: array<real>, chndataAll: array<real>, base: int, baseAll: int,
                     ghost t: seq<real>, i: nat, ghost chn0: seq<real>, ghost all0: seq<real>, x: real)
    requires chndata != chndataAll && i < |t| && x == t[i]
    requires 0 <= base + i < chndata.Length && 0 <= baseAll + i < chndataAll.Length
    requires |chn0| == chndata.Length && |all0| == chndataAll.Length
    requires chndata[..] == AddTrace(chn0, base, t[..i])
    requires chndataAll[..] == PutNegated(all0, baseAll, t[..i])
    modifies chndata, chndataAll
    ensures chndata[..] == AddTrace(chn0, base, t[..i + 1])
    ensures chndataAll[..] == PutNegated(all0, baseAll, t[..i + 1])
  {
    assert t[..i + 1] == t[..i] + [t[i]];
    AddTraceSnoc(chn0, base, t[..i], t[i]);
    PutNegatedSnoc(all0, baseAll, t[..i], t[i]);
    ScatterSample(chndata, base + i, chndataAll, baseAll + i, x);
  }

  /** The scatter of `raw_data[f][ch]` to element `dest` of experiment `n`:
      added into `chndata`, negated into `chndata_all`. */
  method ScatterTrace(rawData: array3<real>, f: nat, ch: nat, L: Layout, n: nat, dest: int,
                      chndata: array<real>, chndataAll: array<real>)
    requires f < rawData.Length0 && ch < rawData.Length1 && L.dataBlockSize <= rawData.Length2
    requires chndata != chndataAll
    requires L.dataBlockSize > 0 ==>
      && 0 <= dest
      && dest * L.dataBlockSize + L.dataBlockSize <= chndata.Length
      && (n * L.numElements + dest) * L.dataBlockSize + L.dataBlockSize <= chndataAll.Length
    modifies chndata, chndataAll
    ensures Outputs(chndata, chndataAll)
         == ApplyJob(L, old(Outputs(chndata, chndataAll)), Job(n, dest, Row(rawData, f, ch, L.dataBlockSize)))
  {
    ghost var t := Row(rawData, f, ch, L.dataBlockSize);
    ghost var chn0, all0 := chndata[..], chndataAll[..];
    var base := dest * L.dataBlockSize;
    var baseAll := (n * L.numElements + dest) * L.dataBlockSize;
    ghost var inBounds := L.dataBlockSize > 0 ==>
      0 <= base && base + L.dataBlockSize <= |chn0| && 0 <= baseAll && baseAll + L.dataBlockSize <= |all0|;
    assert inBounds;
    for i := 0 to L.dataBlockSize
      invariant chndata[..] == AddTrace(chn0, base, t[..i])
      invariant chndataAll[..] == PutNegated(all0, baseAll, t[..i])
    {
      ScatterStep(chndata, chndataAll, base, baseAll, t, i, chn0, all0, rawData[f, ch, i]);
    }
    assert t[..L.dataBlockSize] == t;
  }

  /** What every stage of the decoder may rely on: well-formed inputs,
      sizes that fit the scratch buffer `raw_data[8][32][1300]`, output
      buffers large enough for every scatter, and two distinct output
      buffers. */
  ghost predicate Ready(L: Layout, packs: seq<seq<bv32>>, chanMap: seq<real>,
                        rawData: array3<real>, chndata: array<real>, chndataAll: array<real>)
  {
    && WellFormed(L, packs, chanMap) && FitsScratch(L)
    && ScatterInBounds(L, chanMap, chndata.Length, chndataAll.Length)
    && rawData.Length0 == 8 && rawData.Length1 == BOARD_CHANNELS && rawData.Length2 == 1300
    && chndata != chndataAll
  }

  /** `job` gives the decoder's step at every loop position. */
  ghost predicate IsJobOf(L: Layout, packs: seq<seq<bv32>>, chanMap: seq<real>, job: Point -> Job)
    requires WellFormed(L, packs, chanMap)
  {
    forall p {:trigger job(p), JobAt(L, packs, chanMap, p)} :: InRange(L, p) ==> job(p) == JobAt(L, packs, chanMap, p)
  }

  /** The work for firing `f` of board channel `ch` once experiment `n` of
      board `b` is unpacked: centre the trace, look up its element in the
      channel map (`chan_offset` is the board's offset into the map), and
      scatter it. */
  method ProcessTrace(L: Layout, packs: seq<seq<bv32>>, chanMap: seq<real>,
                      b: nat, n: nat, ch: nat, f: nat, chanOffset: nat,
                      rawData: array3<real>, chndata: array<real>, chndataAll: array<real>, ghost job: Point -> Job)
    requires Ready(L, packs, chanMap, rawData, chndata, chndataAll)
    requires IsJobOf(L, packs, chanMap, job)
    requires InRange(L, Point(b, n, ch, f)) && chanOffset == b * L.totFirings * L.numDaqChnsBoard
    requires forall j :: 0 <= j < L.dataBlockSize ==> rawData[f, ch, j] == RawTrace(L, packs[b], n, f, ch)[j]
    modifies rawData, chndata, chndataAll
    ensures Outputs(chndata, chndataAll)
         == ApplyJob(L, old(Outputs(chndata, chndataAll)), job(Point(b, n, ch, f)))
    ensures forall f', c, j ::
      (0 <= f' < rawData.Length0 && 0 <= c < rawData.Length1 && 0 <= j < rawData.Length2
       && !(f' == f && c == ch))
      ==> rawData[f', c, j] == old(rawData[f', c, j])
  {
    assert Row(rawData, f, ch, L.dataBlockSize) == RawTrace(L, packs[b], n, f, ch);
    CenterTrace(rawData, f, ch, L.dataBlockSize, L.numElements);
    assert ChanMapIndex(L, b, ch, f) == ch * 8 + f + chanOffset;
    var dest := TruncToInt(chanMap[ch * 8 + f + chanOffset]) - 1;
    assert dest == Dest(L, chanMap, b, ch, f);
    assert InRange(L, Point(b, n, ch, f));
    assert job(Point(b, n, ch, f)) == JobAt(L, packs, chanMap, Point(b, n, ch, f));
    ScatterTrace(rawData, f, ch, L, n, dest, chndata, chndataAll);
  }

  /** The firing loop for board channel `ch` of experiment `n` of board
      `b` (whose pack data is `words`). */
  method ProcessChannel(L: Layout, packs: seq<seq<bv32>>, chanMap: seq<real>, ghost words: seq<bv32>,
                        b: nat, n: nat, ch: nat, chanOffset: nat,
                        rawData: array3<real>, chndata: array<real>, chndataAll: array<real>, ghost job: Point -> Job)
    requires Ready(L, packs, chanMap, rawData, chndata, chndataAll)
    requires IsJobOf(L, packs, chanMap, job)
    requires b < 2 && words == packs[b] && n < L.numExperiments && ch < L.numDaqChnsBoard
    requires chanOffset == b * L.totFirings * L.numDaqChnsBoard
    requires forall f, j :: 0 <= f < L.totFirings && 0 <= j < L.dataBlockSize ==>
      rawData[f, ch, j] == RawTrace(L, words, n, f, ch)[j]
    modifies rawData, chndata, chndataAll
    ensures Outputs(chndata, chndataAll)
         == ApplyJobs(L, old(Outputs(chndata, chndataAll)), ChannelSteps(L, job, b, n, ch))
    ensures forall f, c, j :: 0 <= f < 8 && 0 <= c < BOARD_CHANNELS && c != ch && 0 <= j < 1300 ==>
      rawData[f, c, j] == old(rawData[f, c, j])
  {
    ghost var start := Outputs(chndata, chndataAll);
    ghost var steps := ChannelSteps(L, job, b, n, ch);
    for f := 0 to L.totFirings
      invariant Outputs(chndata, chndataAll) == ApplyJobs(L, start, steps[..f])
      invariant forall f', j :: f <= f' < L.totFirings && 0 <= j < L.dataBlockSize ==>
        rawData[f', ch, j] == RawTrace(L, words, n, f', ch)[j]
      invariant forall f', c, j :: 0 <= f' < 8 && 0 <= c < BOARD_CHANNELS && c != ch && 0 <= j < 1300 ==>
        rawData[f', c, j] == old(rawData[f', c, j])
    {
      ProcessTrace(L, packs, chanMap, b, n, ch, f, chanOffset, rawData, chndata, chndataAll, job);
      assert steps[..f + 1] == steps[..f] + [steps[f]];
      ApplyJobsSnoc(L, start, steps[..f], steps[f]);
    }
    assert steps[..L.totFirings] == steps;
  }

  /** The mean-removal and scatter loops for experiment `n` of board `b`
      (whose pack data is `words`): channel by channel, firing by firing. */
  method ProcessExperiment(L: Layout, packs: seq<seq<bv32>>, chanMap: seq<real>, ghost words: seq<bv32>,
                           b: nat, n: nat, chanOffset: nat,
                           rawData: array3<real>, chndata: array<real>, chndataAll: array<real>, ghost job: Point -> Job)
    requires Ready(L, packs, chanMap, rawData, chndata, chndataAll)
    requires IsJobOf(L, packs, chanMap, job)
    requires b < 2 && words == packs[b] && BoardWords(L) <= |words|
    requires n < L.numExperiments && chanOffset == b * L.totFirings * L.numDaqChnsBoard
    requires forall f, c, j :: 0 <= f < L.totFirings && 0 <= c < BOARD_CHANNELS && 0 <= j < L.dataBlockSize ==>
      rawData[f, c, j] == RawTrace(L, words, n, f, c)[j]
    modifies rawData, chndata, chndataAll
    ensures Outputs(chndata, chndataAll)
         == ApplyJobs(L, old(Outputs(chndata, chndataAll)),
                      ExperimentSteps(L, job, b, n, L.numDaqChnsBoard))
  {
    ghost var start := Outputs(chndata, chndataAll);
    for ch := 0 to L.numDaqChnsBoard
      invariant Outputs(chndata, chndataAll) == ApplyJobs(L, start, ExperimentSteps(L, job, b, n, ch))
      invariant forall f, c, j :: 0 <= f < L.totFirings && ch <= c < BOARD_CHANNELS && 0 <= j < L.dataBlockSize ==>
        rawData[f, c, j] == RawTrace(L, words, n, f, c)[j]
    {
      ProcessChannel(L, packs, chanMap, words, b, n, ch, chanOffset, rawData, chndata, chndataAll, job);
      ApplyJobsAppend(L, start, ExperimentSteps(L, job, b, n, ch), ChannelSteps(L, job, b, n, ch));
    }
  }

  /** Experiment `n` of board `b`: unpack, then process every trace. The
      board's steps so far, applied to `start`, grow by the experiment's. */
  method DecodeExperiment(L: Layout, packs: seq<seq<bv32>>, chanMap: seq<real>, words: seq<bv32>,
                          b: nat, n: nat, chanOffset: nat, counter0: nat,
                          rawData: array3<real>, chndata: array<real>, chndataAll: array<real>,
                          ghost job: Point -> Job, ghost start: Buffers)
    returns (counter: nat)
    requires Ready(L, packs, chanMap, rawData, chndata, chndataAll)
    requires IsJobOf(L, packs, chanMap, job)
    requires b < 2 && words == packs[b] && BoardWords(L) <= |words|
    requires n < L.numExperiments && chanOffset == b * L.totFirings * L.numDaqChnsBoard
    requires counter0 == Counter(L, n, 0, 0)
    requires Outputs(chndata, chndataAll) == ApplyJobs(L, start, BoardSteps(L, job, b, n))
    modifies rawData, chndata, chndataAll
    ensures counter == Counter(L, n + 1, 0, 0)
    ensures Outputs(chndata, chndataAll) == ApplyJobs(L, start, BoardSteps(L, job, b, n + 1))
  {
    counter := UnpackExperiment(L, words, n, counter0, rawData);
    ProcessExperiment(L, packs, chanMap, words, b, n, chanOffset, rawData, chndata, chndataAll, job);
    ApplyJobsAppend(L, start, BoardSteps(L, job, b, n), ExperimentSteps(L, job, b, n, L.numDaqChnsBoard));
  }

  /** The experiment loop for board `b`: `counter` restarts at zero, and
      each experiment is unpacked and then processed. */
  method ProcessBoard(L: Layout, packs: seq<seq<bv32>>, chanMap: seq<real>, b: nat,
                      rawData: array3<real>, chndata: array<real>, chndataAll: array<real>, ghost job: Point -> Job)
    requires Ready(L, packs, chanMap, rawData, chndata, chndataAll)
    requires IsJobOf(L, packs, chanMap, job)
    requires b < 2
    modifies rawData, chndata, chndataAll
    ensures Outputs(chndata, chndataAll)
         == ApplyJobs(L, old(Outputs(chndata, chndataAll)), BoardSteps(L, job, b, L.numExperiments))
  {
    ghost var start := Outputs(chndata, chndataAll);
    var packData := packs[b];
    var chanOffset: nat := b * L.totFirings * L.numDaqChnsBoard;
    var counter: nat := 0;
    for n := 0 to L.numExperiments
      invariant counter == Counter(L, n, 0, 0)
      invariant Outputs(chndata, chndataAll) == ApplyJobs(L, start, BoardSteps(L, job, b, n))
    {
      counter := DecodeExperiment(L, packs, chanMap, packData, b, n, chanOffset, counter,
                                  rawData, chndata, chndataAll, job, start);
    }
  }

  /** `daq_loop_imp`: for board 0 and then board 1, for every experiment,
      unpack its packs into `raw_data` and process every (channel, firing)
      trace. The two output buffers end as the scatter steps of `AllJobs`
      applied in order to what they held before. */
  method DaqLoopImp(packDataBoard: seq<seq<bv32>>, chanMap: seq<real>, numExperiments: nat,
                    chndata: array<real>, chndataAll: array<real>,
                    totFirings: nat, numDaqChnsBoard: nat, dataBlockSize: nat, numElements: nat)
    requires var L := Layout(numExperiments, totFirings, numDaqChnsBoard, dataBlockSize, numElements);
      && WellFormed(L, packDataBoard, chanMap) && FitsScratch(L)
      && ScatterInBounds(L, chanMap, chndata.Length, chndataAll.Length)
    requires chndata != chndataAll
    modifies chndata, chndataAll
    ensures var L := Layout(numExperiments, totFirings, numDaqChnsBoard, dataBlockSize, numElements);
      Outputs(chndata, chndataAll) == ApplyJobs(L, old(Outputs(chndata, chndataAll)), AllJobs(L, packDataBoard, chanMap))
  {
    var L := Layout(numExperiments, totFirings, numDaqChnsBoard, dataBlockSize, numElements);
    ghost var st0 := Outputs(chndata, chndataAll);
    ghost var job := JobOf(L, packDataBoard, chanMap);
    assert IsJobOf(L, packDataBoard, chanMap, job);
    var rawData := new real[8, BOARD_CHANNELS, 1300];
    for b := 0 to 2
      invariant Outputs(chndata, chndataAll) == ApplyJobs(L, st0, Steps(L, job, b))
    {
      ProcessBoard(L, packDataBoard, chanMap, b, rawData, chndata, chndataAll, job);
      ApplyJobsAppend(L, st0, Steps(L, job, b), BoardSteps(L, job, b, L.numExperiments));
    }
  }


  /** `daq_loop`: forwards the two boards, in order, to `daq_loop_imp`;
      the size arguments are not used. */
  method DaqLoop(packDataBoard1: seq<bv32>, sizePackDataBoard1: int,
                 packDataBoard2: seq<bv32>, sizePackDataBoard2: int,
                 chanMap: seq<real>, sizeChanMap: int,
                 chndata: array<real>, sizeChndata: int,
                 chndataAll: array<real>, sizeChndataAll: int,
                 numExperiments: nat, totFirings: nat, numDaqChnsBoard: nat,
                 dataBlockSize: nat, numElements: nat)
    requires var L := Layout(numExperiments, totFirings, numDaqChnsBoard, dataBlockSize, numElements);
      && WellFormed(L, [packDataBoard1, packDataBoard2], chanMap) && FitsScratch(L)
      && ScatterInBounds(L, chanMap, chndata.Length, chndataAll.Length)
    requires chndata != chndataAll
    modifies chndata, chndataAll
    ensures var L := Layout(numExperiments, totFirings, numDaqChnsBoard, dataBlockSize, numElements);
      Outputs(chndata, chndataAll)
      == ApplyJobs(L, old(Outputs(chndata, chndataAll)), AllJobs(L, [packDataBoard1, packDataBoard2], chanMap))
  {
    DaqLoopImp([packDataBoard1, packDataBoard2], chanMap, numExperiments, chndata, chndataAll,
               totFirings, numDaqChnsBoard, dataBlockSize, numElements);
  }
}
