/** What the DAQ decoder `daq_loop_imp` computes, stated on values.

    For each board B (0, then 1), experiment N, board channel ch and firing
    F, in that loop order, the decoder takes the samples of channel ch in
    firing F, removes their mean, divides them by NumElements and
    "scatters" the result through the channel map to an element channel
    `dest`: it adds the trace into `chndata[dest]` and overwrites
    `chndata_all[N][dest]` with the negated trace. Each such step is a
    `Job`; the decoder's effect on its two output buffers is the fold of
    `ApplyJob` over `AllJobs`, in loop order. */
module DaqSpec {
  import opened Common
  import opened DaqLayout

  /** The size parameters of `daq_loop_imp`. */
  datatype Layout = Layout(numExperiments: nat, totFirings: nat, numDaqChnsBoard: nat,
                           dataBlockSize: nat, numElements: nat)

  /** The sizes fit the decoder's scratch buffer `raw_data[8][32][1300]`. */
  predicate FitsScratch(L: Layout)
  {
    L.totFirings <= 8 && L.numDaqChnsBoard <= BOARD_CHANNELS && L.dataBlockSize <= 1300
  }

  /** The C code's `counter` when it reaches pack `i` of firing `f` of
      experiment `n`: one per pack, six per firing, reset for each board. */
  function Counter(L: Layout, n: nat, f: nat, i: nat): nat
  {
    (n * L.totFirings + f) * 6 + i
  }

  /** Word offset of that pack: each pack holds `2 * DataBlockSize` words
      (an even and an odd word per sample position). */
  function PackBase(L: Layout, n: nat, f: nat, i: nat): nat
  {
    Counter(L, n, f, i) * 2 * L.dataBlockSize
  }

  /** Words a board's pack data must hold. */
  function BoardWords(L: Layout): nat
  {
    L.numExperiments * L.totFirings * 6 * 2 * L.dataBlockSize
  }

  /** Every pack the decoder reads lies inside the board's words, and the
      packs of the last firing of the last experiment end exactly there. */
  lemma PackInBoard(L: Layout, n: nat, f: nat, i: nat)
    requires n < L.numExperiments && f < L.totFirings && i < PACKS
    ensures PackBase(L, n, f, i) + 2 * L.dataBlockSize <= BoardWords(L)
  {
    var tf := L.totFirings;
    var c := Counter(L, n, f, i);
    MulRightMono(n + 1, L.numExperiments, tf);
    assert (n + 1) * tf == n * tf + tf;
    MulRightMono(n * tf + f + 1, L.numExperiments * tf, 6);
    assert (n * tf + f + 1) * 6 == (n * tf + f) * 6 + 6;
    MulRightMono(c * 2 + 2, L.numExperiments * tf * 6 * 2, L.dataBlockSize);
    assert (c * 2 + 2) * L.dataBlockSize == c * 2 * L.dataBlockSize + 2 * L.dataBlockSize;
  }

  /** Word `k` of a board's pack data. Every word the decoder reads lies
      inside the data when the board holds `BoardWords` words
      (`RawTraceInPack`), so the zero is never used there. */
  function WordAt(words: seq<bv32>, k: nat): (w: bv32)
    ensures k < |words| ==> w == words[k]
  {
    if k < |words| then words[k] else 0
  }

  /** The samples of channel `ch` in firing `f` of experiment `n`, as the
      unpacking loop leaves them in `raw_data[f][ch]`: sample `Slot(ch)` of
      the `Lane(ch)` word of each sample position of the channel's pack. */
  function RawTrace(L: Layout, words: seq<bv32>, n: nat, f: nat, ch: nat): (t: seq<real>)
    requires ch < BOARD_CHANNELS
    ensures |t| == L.dataBlockSize
    ensures forall j :: 0 <= j < |t| ==> 0.0 <= t[j] <= 1023.0
  {
    seq(L.dataBlockSize, j requires 0 <= j < L.dataBlockSize => RawSample(L, words, n, f, ch, j))
  }

  /** Sample position `j` of that trace. */
  function RawSample(L: Layout, words: seq<bv32>, n: nat, f: nat, ch: nat, j: nat): (x: real)
    requires ch < BOARD_CHANNELS
    ensures 0.0 <= x <= 1023.0
  {
    Field(WordAt(words, PackBase(L, n, f, PackOf(ch)) + j * 2 + Lane(ch)), Slot(ch)) as real
  }

  /** Both words of sample position `j` of a pack lie inside the board. */
  lemma PackWordsInBoard(L: Layout, words: seq<bv32>, n: nat, f: nat, i: nat, j: nat)
    requires n < L.numExperiments && f < L.totFirings && i < PACKS
    requires BoardWords(L) <= |words| && j < L.dataBlockSize
    ensures PackBase(L, n, f, i) + j * 2 + 1 < |words|
  {
    PackInBoard(L, n, f, i);
    assert j * 2 + 1 < 2 * L.dataBlockSize;
  }

  /** Sample `j` of the channel at offset `off` of pack `i`, by word
      offset within the board. */
  lemma RawSampleInPack(L: Layout, words: seq<bv32>, n: nat, f: nat, i: nat, off: nat, j: nat)
    requires i < PACKS && off < PackWidth(i)
    ensures PackStart(i) + off < BOARD_CHANNELS
    ensures RawSample(L, words, n, f, PackStart(i) + off, j)
         == Field(WordAt(words, PackBase(L, n, f, i) + j * 2 + off % 2), off / 2) as real
  {
    var ch := PackStart(i) + off;
    PackOfInverse(i, off);
    LaneAndSlotInPack(i, off);
    assert PackOf(ch) == i;
  }

  /** The same sample read from the trace, for a pack inside the board. */
  lemma RawTraceInPack(L: Layout, words: seq<bv32>, n: nat, f: nat, i: nat, off: nat, j: nat)
    requires n < L.numExperiments && f < L.totFirings && i < PACKS && off < PackWidth(i)
    requires BoardWords(L) <= |words| && j < L.dataBlockSize
    ensures PackStart(i) + off < BOARD_CHANNELS && PackBase(L, n, f, i) + j * 2 + 1 < |words|
    ensures RawTrace(L, words, n, f, PackStart(i) + off)[j]
         == Field(words[PackBase(L, n, f, i) + j * 2 + off % 2], off / 2) as real
  {
    PackWordsInBoard(L, words, n, f, i, j);
    RawSampleInPack(L, words, n, f, i, off, j);
  }

  /** `mean_data`: the sum of the trace divided by its length. */
  function Mean(t: seq<real>): real
  {
    if |t| == 0 then 0.0 else Sum(t) / (|t| as real)
  }

  /** The trace with its mean removed, divided by NumElements. */
  function Centered(t: seq<real>, numElements: nat): (c: seq<real>)
    requires numElements > 0
    ensures |c| == |t|
  {
    seq(|t|, k requires 0 <= k < |t| => (t[k] - Mean(t)) / (numElements as real))
  }

  /** A centred trace sums to zero. */
  lemma CenteredSumsToZero(t: seq<real>, numElements: nat)
    requires numElements > 0
    ensures Sum(Centered(t, numElements)) == 0.0
  {
    var n := |t| as real;
    SumShiftScale(t, Centered(t, numElements), Mean(t), numElements as real);
    if |t| > 0 {
      assert n * (Sum(t) / n) == Sum(t);
    }
  }

  /** Adding a constant to every sample adds it to the mean. */
  lemma MeanShift(t: seq<real>, t': seq<real>, offset: real)
    requires |t'| == |t| && 0 < |t|
    requires forall k :: 0 <= k < |t| ==> t'[k] == t[k] + offset
    ensures Mean(t') == Mean(t) + offset
  {
    var n := |t| as real;
    SumShift(t', t, offset);
    DivAdd(Sum(t), n * offset, n);
    assert (n * offset) / n == offset;
  }

  /** Centring removes any constant offset of the samples. */
  lemma CenteredIgnoresOffset(t: seq<real>, t': seq<real>, offset: real, numElements: nat)
    requires numElements > 0
    requires |t'| == |t|
    requires forall k :: 0 <= k < |t| ==> t'[k] == t[k] + offset
    ensures Centered(t', numElements) == Centered(t, numElements)
  {
    if |t| > 0 {
      MeanShift(t, t', offset);
    }
    var c, c' := Centered(t, numElements), Centered(t', numElements);
    assert forall k :: 0 <= k < |t| ==> c'[k] == c[k];
  }

  /** Position in the channel map of board channel `ch`, firing `f`, board
      `b`: the column stride 8 is fixed, the board offset is
      `b * TotFirings * NumDaqChnsBoard`. */
  function ChanMapIndex(L: Layout, b: nat, ch: nat, f: nat): nat
  {
    ch * 8 + f + b * L.totFirings * L.numDaqChnsBoard
  }

  /** (board, channel, firing) ranges over what the decoder visits. */
  predicate InBoard(L: Layout, b: nat, ch: nat, f: nat)
  {
    b < 2 && ch < L.numDaqChnsBoard && f < L.totFirings
  }

  ghost predicate ChanMapCovers(L: Layout, chanMap: seq<real>)
  {
    forall b: nat, ch: nat, f: nat :: InBoard(L, b, ch, f) ==> ChanMapIndex(L, b, ch, f) < |chanMap|
  }

  /** Destination element channel: the 1-based map entry, truncated to an
      int, minus one. */
  function Dest(L: Layout, chanMap: seq<real>, b: nat, ch: nat, f: nat): int
    requires ChanMapIndex(L, b, ch, f) < |chanMap|
  {
    TruncToInt(chanMap[ChanMapIndex(L, b, ch, f)]) - 1
  }

  ghost predicate DestsInRange(L: Layout, chanMap: seq<real>)
    requires ChanMapCovers(L, chanMap)
  {
    forall b: nat, ch: nat, f: nat :: InBoard(L, b, ch, f) ==> 0 <= Dest(L, chanMap, b, ch, f) < L.numElements
  }

  /** Every write of the scatter lands inside output buffers of lengths
      `chnLength` and `allLength` (nothing is written when traces are empty). */
  ghost predicate ScatterInBounds(L: Layout, chanMap: seq<real>, chnLength: nat, allLength: nat)
    requires ChanMapCovers(L, chanMap)
  {
    L.dataBlockSize > 0 ==>
      forall p: Point :: InRange(L, p) ==>
        var d := Dest(L, chanMap, p.board, p.channel, p.firing);
        && 0 <= d
        && d * L.dataBlockSize + L.dataBlockSize <= chnLength
        && (p.experiment * L.numElements + d) * L.dataBlockSize + L.dataBlockSize <= allLength
  }

  /** Destinations among the NumElements elements keep the scatter inside
      buffers of NumElements and NumExperiments * NumElements traces. */
  lemma DestsInRangeScatterInBounds(L: Layout, chanMap: seq<real>)
    requires ChanMapCovers(L, chanMap) && DestsInRange(L, chanMap)
    ensures ScatterInBounds(L, chanMap, L.numElements * L.dataBlockSize,
                            L.numExperiments * L.numElements * L.dataBlockSize)
  {
    if L.dataBlockSize > 0 {
      forall p: Point | InRange(L, p)
        ensures var d := Dest(L, chanMap, p.board, p.channel, p.firing);
          && 0 <= d
          && d * L.dataBlockSize + L.dataBlockSize <= L.numElements * L.dataBlockSize
          && (p.experiment * L.numElements + d) * L.dataBlockSize + L.dataBlockSize
             <= L.numExperiments * L.numElements * L.dataBlockSize
      {
        var d: nat := Dest(L, chanMap, p.board, p.channel, p.firing);
        assert InBoard(L, p.board, p.channel, p.firing);
        RowMajorBound(d, 0, L.numElements, L.dataBlockSize);
        RowMajorBound(p.experiment, d, L.numExperiments, L.numElements);
        RowMajorBound(p.experiment * L.numElements + d, 0, L.numExperiments * L.numElements, L.dataBlockSize);
      }
    }
  }

  /** Distinct (board, channel, firing) triples go to distinct elements. */
  ghost predicate MapInjective(L: Layout, chanMap: seq<real>)
    requires ChanMapCovers(L, chanMap)
  {
    forall b: nat, ch: nat, f: nat, b': nat, ch': nat, f': nat ::
      InBoard(L, b, ch, f) && InBoard(L, b', ch', f') && Dest(L, chanMap, b, ch, f) == Dest(L, chanMap, b', ch', f')
      ==> b == b' && ch == ch' && f == f'
  }

  /** With eight firings the hard-coded stride gives every triple its own
      map entry. */
  lemma ChanMapIndexUniqueWithEightFirings(L: Layout, b: nat, ch: nat, f: nat, b': nat, ch': nat, f': nat)
    requires L.totFirings == 8
    requires InBoard(L, b, ch, f) && InBoard(L, b', ch', f')
    requires ChanMapIndex(L, b, ch, f) == ChanMapIndex(L, b', ch', f')
    ensures b == b' && ch == ch' && f == f'
  {
    var w := L.numDaqChnsBoard;
    assert ChanMapIndex(L, b, ch, f) == (b * w + ch) * 8 + f;
    assert ChanMapIndex(L, b', ch', f') == (b' * w + ch') * 8 + f';
    RowMajorUnique(b * w + ch, f, b' * w + ch', f', 8);
    RowMajorUnique(b, ch, b', ch', w);
  }

  /** With fewer firings two triples share an entry: with four firings,
      channel 16 of board 0 and channel 0 of board 1 both read entry 128. */
  lemma ChanMapIndexCollidesWithFourFirings()
    ensures var L := Layout(1, 4, 32, 1300, 512);
            InBoard(L, 0, 16, 0) && InBoard(L, 1, 0, 0)
            && ChanMapIndex(L, 0, 16, 0) == 128 && ChanMapIndex(L, 1, 0, 0) == 128
  {
  }

  /** One scatter step: experiment, destination element and trace. */
  datatype Job = Job(experiment: nat, dest: int, trace: seq<real>)

  /** A position of the decoder's loops. */
  datatype Point = Point(board: nat, experiment: nat, channel: nat, firing: nat)

  predicate InRange(L: Layout, p: Point)
  {
    InBoard(L, p.board, p.channel, p.firing) && p.experiment < L.numExperiments
  }

  /** Inputs the decoder can read: two boards of pack data, each long
      enough, and a channel map covering every triple. */
  ghost predicate WellFormed(L: Layout, packs: seq<seq<bv32>>, chanMap: seq<real>)
  {
    && L.numElements > 0 && L.numDaqChnsBoard <= BOARD_CHANNELS
    && |packs| == 2 && BoardWords(L) <= |packs[0]| && BoardWords(L) <= |packs[1]|
    && ChanMapCovers(L, chanMap)
  }

  /** The scatter step the decoder performs at loop position `p`. */
  function JobAt(L: Layout, packs: seq<seq<bv32>>, chanMap: seq<real>, p: Point): Job
    requires WellFormed(L, packs, chanMap) && InRange(L, p)
  {
    Job(p.experiment, Dest(L, chanMap, p.board, p.channel, p.firing),
        Centered(RawTrace(L, packs[p.board], p.experiment, p.firing, p.channel), L.numElements))
  }

  function JobCount(L: Layout): nat
  {
    2 * L.numExperiments * L.numDaqChnsBoard * L.totFirings
  }

  /** Number of scatter steps before loop position `p`. */
  function Encode(L: Layout, p: Point): nat
  {
    ((p.board * L.numExperiments + p.experiment) * L.numDaqChnsBoard + p.channel) * L.totFirings + p.firing
  }

  /** Quotient and remainder of `q` by `width`, for `q` below `rows * width`. */
  function DivMod(q: nat, rows: nat, width: nat): (r: (nat, nat))
    requires q < rows * width
    ensures width > 0 && r.0 < rows && r.1 < width && q == r.0 * width + r.1
  {
    DivModBound(q, rows, width);
    (q / width, q % width)
  }

  /** The loop position of the `q`-th scatter step: the digits of `q` in
      the mixed radix (2, NumExperiments, NumDaqChnsBoard, TotFirings). */
  function Decode(L: Layout, q: nat): (p: Point)
    requires q < JobCount(L)
    ensures InRange(L, p) && Encode(L, p) == q
  {
    var (r1, f) := DivMod(q, 2 * L.numExperiments * L.numDaqChnsBoard, L.totFirings);
    var (r2, ch) := DivMod(r1, 2 * L.numExperiments, L.numDaqChnsBoard);
    var (b, n) := DivMod(r2, 2, L.numExperiments);
    Point(b, n, ch, f)
  }

  lemma EncodeBound(L: Layout, p: Point)
    requires InRange(L, p)
    ensures Encode(L, p) < JobCount(L)
  {
    var ne, w, tf := L.numExperiments, L.numDaqChnsBoard, L.totFirings;
    var a := p.board * ne + p.experiment;
    RowMajorBound(p.board, p.experiment, 2, ne);
    RowMajorBound(a, p.channel, 2 * ne, w);
    RowMajorBound(a * w + p.channel, p.firing, 2 * ne * w, tf);
  }

  /** Distinct loop positions get distinct step numbers. */
  lemma EncodeInjective(L: Layout, p: Point, p': Point)
    requires InRange(L, p) && InRange(L, p') && Encode(L, p) == Encode(L, p')
    ensures p == p'
  {
    MixedRadixUnique(p.board, p.experiment, p.channel, p.firing,
                     p'.board, p'.experiment, p'.channel, p'.firing,
                     L.numExperiments, L.numDaqChnsBoard, L.totFirings);
  }

  /** `Encode` numbers the loop positions without gaps or repeats. */
  lemma DecodeEncode(L: Layout, p: Point)
    requires InRange(L, p)
    ensures Encode(L, p) < JobCount(L) && Decode(L, Encode(L, p)) == p
  {
    EncodeBound(L, p);
    EncodeInjective(L, p, Decode(L, Encode(L, p)));
  }

  /** The steps of the firing loop for board channel `ch` of experiment
      `n` of board `b`, where `job` gives the step at each loop position. */
  function ChannelSteps(L: Layout, job: Point -> Job, b: nat, n: nat, ch: nat): (jobs: seq<Job>)
    ensures |jobs| == L.totFirings
    ensures forall f :: 0 <= f < L.totFirings ==> jobs[f] == job(Point(b, n, ch, f))
  {
    seq(L.totFirings, f requires 0 <= f < L.totFirings => job(Point(b, n, ch, f)))
  }

  /** The steps of the first `c` board channels of experiment `n` of board
      `b`, channel after channel. */
  function ExperimentSteps(L: Layout, job: Point -> Job, b: nat, n: nat, c: nat): seq<Job>
  {
    if c == 0 then [] else ExperimentSteps(L, job, b, n, c - 1) + ChannelSteps(L, job, b, n, c - 1)
  }

  /** The steps of the first `m` experiments of board `b`. */
  function BoardSteps(L: Layout, job: Point -> Job, b: nat, m: nat): seq<Job>
  {
    if m == 0 then [] else BoardSteps(L, job, b, m - 1) + ExperimentSteps(L, job, b, m - 1, L.numDaqChnsBoard)
  }

  /** The steps of the first `bs` boards; `Steps(L, job, 2)` are all
      steps of the decoder's loops, in loop order. */
  function Steps(L: Layout, job: Point -> Job, bs: nat): seq<Job>
  {
    if bs == 0 then [] else Steps(L, job, bs - 1) + BoardSteps(L, job, bs - 1, L.numExperiments)
  }

  lemma {:induction false} ExperimentStepsLength(L: Layout, job: Point -> Job, b: nat, n: nat, c: nat)
    ensures |ExperimentSteps(L, job, b, n, c)| == c * L.totFirings
  {
    if c > 0 {
      ExperimentStepsLength(L, job, b, n, c - 1);
      assert (c - 1) * L.totFirings + L.totFirings == c * L.totFirings;
    }
  }

  lemma {:induction false} BoardStepsLength(L: Layout, job: Point -> Job, b: nat, m: nat)
    ensures |BoardSteps(L, job, b, m)| == m * (L.numDaqChnsBoard * L.totFirings)
  {
    if m > 0 {
      var x := L.numDaqChnsBoard * L.totFirings;
      BoardStepsLength(L, job, b, m - 1);
      ExperimentStepsLength(L, job, b, m - 1, L.numDaqChnsBoard);
      assert (m - 1) * x + x == m * x;
    }
  }

  lemma {:induction false} StepsLengthUpTo(L: Layout, job: Point -> Job, bs: nat)
    ensures |Steps(L, job, bs)| == bs * (L.numExperiments * (L.numDaqChnsBoard * L.totFirings))
  {
    if bs > 0 {
      var x := L.numExperiments * (L.numDaqChnsBoard * L.totFirings);
      StepsLengthUpTo(L, job, bs - 1);
      BoardStepsLength(L, job, bs - 1, L.numExperiments);
      assert (bs - 1) * x + x == bs * x;
    }
  }

  /** One step per loop position. */
  lemma StepsLength(L: Layout, job: Point -> Job)
    ensures |Steps(L, job, 2)| == JobCount(L)
  {
    StepsLengthUpTo(L, job, 2);
    MulAssoc(2, L.numExperiments, L.numDaqChnsBoard, L.totFirings);
  }

  /** Firing `f` of channel `ch` follows the steps of the channels before
      `ch` in its experiment. */
  lemma {:induction false} ExperimentStepsAt(L: Layout, job: Point -> Job, b: nat, n: nat, c: nat, ch: nat, f: nat)
    requires ch < c && f < L.totFirings
    ensures |ExperimentSteps(L, job, b, n, ch)| + f < |ExperimentSteps(L, job, b, n, c)|
    ensures ExperimentSteps(L, job, b, n, c)[|ExperimentSteps(L, job, b, n, ch)| + f] == job(Point(b, n, ch, f))
  {
    if ch < c - 1 {
      ExperimentStepsAt(L, job, b, n, c - 1, ch, f);
    }
  }

  /** ... and the steps of the experiments before `n` on its board. */
  lemma {:induction false} BoardStepsAt(L: Layout, job: Point -> Job, b: nat, m: nat, n: nat, ch: nat, f: nat)
    requires n < m && ch < L.numDaqChnsBoard && f < L.totFirings
    ensures |BoardSteps(L, job, b, n)| + |ExperimentSteps(L, job, b, n, ch)| + f < |BoardSteps(L, job, b, m)|
    ensures BoardSteps(L, job, b, m)[|BoardSteps(L, job, b, n)| + |ExperimentSteps(L, job, b, n, ch)| + f]
         == job(Point(b, n, ch, f))
  {
    if n < m - 1 {
      BoardStepsAt(L, job, b, m - 1, n, ch, f);
    } else {
      ExperimentStepsAt(L, job, b, n, L.numDaqChnsBoard, ch, f);
    }
  }

  /** ... and the steps of the boards before `b`. */
  lemma {:induction false} StepsAtUpTo(L: Layout, job: Point -> Job, bs: nat, p: Point)
    requires p.board < bs && p.experiment < L.numExperiments && p.channel < L.numDaqChnsBoard && p.firing < L.totFirings
    ensures |Steps(L, job, p.board)| + |BoardSteps(L, job, p.board, p.experiment)|
            + |ExperimentSteps(L, job, p.board, p.experiment, p.channel)| + p.firing < |Steps(L, job, bs)|
    ensures Steps(L, job, bs)[|Steps(L, job, p.board)| + |BoardSteps(L, job, p.board, p.experiment)|
                              + |ExperimentSteps(L, job, p.board, p.experiment, p.channel)| + p.firing]
         == job(p)
  {
    if p.board < bs - 1 {
      StepsAtUpTo(L, job, bs - 1, p);
    } else {
      BoardStepsAt(L, job, p.board, L.numExperiments, p.experiment, p.channel, p.firing);
    }
  }

  /** The step number of a loop position, split by loop level: the steps
      of the boards before its board, of the experiments before its
      experiment and of the channels before its channel, then its firing. */
  lemma EncodeSplit(L: Layout, p: Point, boards: nat, experiments: nat, channels: nat)
    requires boards == p.board * (L.numExperiments * (L.numDaqChnsBoard * L.totFirings))
    requires experiments == p.experiment * (L.numDaqChnsBoard * L.totFirings)
    requires channels == p.channel * L.totFirings
    ensures Encode(L, p) == boards + experiments + channels + p.firing
  {
    var ne, w, tf := L.numExperiments, L.numDaqChnsBoard, L.totFirings;
    var b, n, ch := p.board, p.experiment, p.channel;
    assert ((b * ne + n) * w + ch) * tf == (b * ne + n) * w * tf + ch * tf;
    assert (b * ne + n) * w * tf == b * ne * w * tf + n * w * tf;
  }

  /** Step number `Encode(p)` is the step of loop position `p`. */
  lemma StepsAt(L: Layout, job: Point -> Job, p: Point)
    requires InRange(L, p)
    ensures Encode(L, p) < |Steps(L, job, 2)|
    ensures Steps(L, job, 2)[Encode(L, p)] == job(p)
  {
    var b, n, ch := p.board, p.experiment, p.channel;
    StepsAtUpTo(L, job, 2, p);
    StepsLengthUpTo(L, job, b);
    BoardStepsLength(L, job, b, n);
    ExperimentStepsLength(L, job, b, n, ch);
    EncodeSplit(L, p, |Steps(L, job, b)|, |BoardSteps(L, job, b, n)|, |ExperimentSteps(L, job, b, n, ch)|);
  }

  /** The decoder's step at each loop position (an empty step elsewhere). */
  ghost function JobOf(L: Layout, packs: seq<seq<bv32>>, chanMap: seq<real>): Point -> Job
  {
    p => if WellFormed(L, packs, chanMap) && InRange(L, p) then JobAt(L, packs, chanMap, p) else Job(0, -1, [])
  }

  /** Every scatter step of the decoder, in loop order. */
  ghost function AllJobs(L: Layout, packs: seq<seq<bv32>>, chanMap: seq<real>): seq<Job>
  {
    Steps(L, JobOf(L, packs, chanMap), 2)
  }

  /** The step at position `Encode(p)` is the one for loop position `p`,
      and there are `JobCount` steps. */
  lemma AllJobsAt(L: Layout, packs: seq<seq<bv32>>, chanMap: seq<real>, p: Point)
    requires WellFormed(L, packs, chanMap) && InRange(L, p)
    ensures |AllJobs(L, packs, chanMap)| == JobCount(L)
    ensures Encode(L, p) < |AllJobs(L, packs, chanMap)|
    ensures AllJobs(L, packs, chanMap)[Encode(L, p)] == JobAt(L, packs, chanMap, p)
  {
    StepsLength(L, JobOf(L, packs, chanMap));
    StepsAt(L, JobOf(L, packs, chanMap), p);
  }

  /** The two output buffers: `chndata` (NumElements traces) and
      `chndata_all` (NumExperiments * NumElements traces). */
  datatype Buffers = Buffers(chn: seq<real>, all: seq<real>)

  /** `buf` with `t` added at positions `base ..`. */
  function AddTrace(buf: seq<real>, base: int, t: seq<real>): (r: seq<real>)
    ensures |r| == |buf|
  {
    seq(|buf|, k requires 0 <= k < |buf| => if base <= k < base + |t| then buf[k] + t[k - base] else buf[k])
  }

  /** `buf` with the negated `t` written at positions `base ..`. */
  function PutNegated(buf: seq<real>, base: int, t: seq<real>): (r: seq<real>)
    ensures |r| == |buf|
  {
    seq(|buf|, k requires 0 <= k < |buf| => if base <= k < base + |t| then -t[k - base] else buf[k])
  }

  /** One scatter step: `chndata[dest*DBS + i] += trace[i]` and
      `chndata_all[(N*NumElements + dest)*DBS + i] = -trace[i]`. */
  function ApplyJob(L: Layout, st: Buffers, job: Job): Buffers
  {
    Buffers(AddTrace(st.chn, job.dest * L.dataBlockSize, job.trace),
            PutNegated(st.all, (job.experiment * L.numElements + job.dest) * L.dataBlockSize, job.trace))
  }

  /** The steps applied in order. */
  function ApplyJobs(L: Layout, st: Buffers, jobs: seq<Job>): (r: Buffers)
    ensures |r.chn| == |st.chn| && |r.all| == |st.all|
    decreases |jobs|
  {
    if |jobs| == 0 then st else ApplyJobs(L, ApplyJob(L, st, jobs[0]), jobs[1..])
  }

  /** Adding one more sample of the trace changes one position. */
  lemma AddTraceSnoc(buf: seq<real>, base: int, t: seq<real>, x: real)
    requires 0 <= base + |t| < |buf|
    ensures AddTrace(buf, base, t + [x])
         == AddTrace(buf, base, t)[base + |t| := AddTrace(buf, base, t)[base + |t|] + x]
  {
  }

  lemma PutNegatedSnoc(buf: seq<real>, base: int, t: seq<real>, x: real)
    requires 0 <= base + |t| < |buf|
    ensures PutNegated(buf, base, t + [x]) == PutNegated(buf, base, t)[base + |t| := -x]
  {
  }

  lemma {:induction false} ApplyJobsSnoc(L: Layout, st: Buffers, jobs: seq<Job>, job: Job)
    ensures ApplyJobs(L, st, jobs + [job]) == ApplyJob(L, ApplyJobs(L, st, jobs), job)
    decreases |jobs|
  {
    if |jobs| == 0 {
      assert jobs + [job] == [job];
    } else {
      assert (jobs + [job])[1..] == jobs[1..] + [job];
      ApplyJobsSnoc(L, ApplyJob(L, st, jobs[0]), jobs[1..], job);
    }
  }

  /** Applying two lists of steps is applying their concatenation. */
  lemma {:induction false} ApplyJobsAppend(L: Layout, st: Buffers, jobs: seq<Job>, more: seq<Job>)
    ensures ApplyJobs(L, st, jobs + more) == ApplyJobs(L, ApplyJobs(L, st, jobs), more)
    decreases |jobs|
  {
    if |jobs| == 0 {
      assert jobs + more == more;
    } else {
      assert (jobs + more)[1..] == jobs[1..] + more;
      ApplyJobsAppend(L, ApplyJob(L, st, jobs[0]), jobs[1..], more);
    }
  }

  // What the buffers hold once every step has run.

  /** Position of sample `i` of element `c` in `chndata`. */
  function ChnIndex(L: Layout, c: nat, i: nat): (k: nat)
    requires c < L.numElements && i < L.dataBlockSize
    ensures k < L.numElements * L.dataBlockSize
  {
    RowMajorBound(c, i, L.numElements, L.dataBlockSize);
    c * L.dataBlockSize + i
  }

  /** Position of sample `i` of element `c` of experiment `n` in
      `chndata_all`. */
  function SlotIndex(L: Layout, n: nat, c: nat, i: nat): (k: nat)
    requires n < L.numExperiments && c < L.numElements && i < L.dataBlockSize
    ensures k < L.numExperiments * L.numElements * L.dataBlockSize
  {
    RowMajorBound(n, c, L.numExperiments, L.numElements);
    RowMajorBound(n * L.numElements + c, i, L.numExperiments * L.numElements, L.dataBlockSize);
    (n * L.numElements + c) * L.dataBlockSize + i
  }

  lemma SlotIndexUnique(L: Layout, n: nat, c: nat, i: nat, n': nat, c': nat, i': nat)
    requires n < L.numExperiments && c < L.numElements && i < L.dataBlockSize
    requires n' < L.numExperiments && c' < L.numElements && i' < L.dataBlockSize
    requires SlotIndex(L, n, c, i) == SlotIndex(L, n', c', i')
    ensures n == n' && c == c' && i == i'
  {
    NestedRowMajorUnique(n, c, i, n', c', i', L.numElements, L.dataBlockSize);
  }

  /** Sum over the first `m` experiments of sample `i` of element `c` in
      `chndata_all`. */
  function ExpSum(L: Layout, all: seq<real>, c: nat, i: nat, m: nat): real
    requires c < L.numElements && i < L.dataBlockSize && m <= L.numExperiments
    requires L.numExperiments * L.numElements * L.dataBlockSize <= |all|
  {
    if m == 0 then 0.0 else ExpSum(L, all, c, i, m - 1) + all[SlotIndex(L, m - 1, c, i)]
  }

  /** `chndata` is the negated sum over experiments of `chndata_all`. */
  ghost predicate Consistent(L: Layout, st: Buffers)
  {
    && L.numElements * L.dataBlockSize <= |st.chn|
    && L.numExperiments * L.numElements * L.dataBlockSize <= |st.all|
    && forall c: nat, i: nat :: c < L.numElements && i < L.dataBlockSize ==>
         st.chn[ChnIndex(L, c, i)] == -ExpSum(L, st.all, c, i, L.numExperiments)
  }

  /** The part of `chndata_all` for element `d` of experiment `n` is zero. */
  ghost predicate SlotZero(L: Layout, all: seq<real>, n: nat, d: nat)
    requires n < L.numExperiments && d < L.numElements
    requires L.numExperiments * L.numElements * L.dataBlockSize <= |all|
  {
    forall i :: 0 <= i < L.dataBlockSize ==> all[SlotIndex(L, n, d, i)] == 0.0
  }

  /** A step whose writes stay inside the buffers. */
  predicate ValidJob(L: Layout, job: Job)
  {
    job.experiment < L.numExperiments && 0 <= job.dest < L.numElements && |job.trace| == L.dataBlockSize
  }

  /** No two steps write the same (experiment, element) part of `chndata_all`. */
  predicate DistinctSlots(jobs: seq<Job>)
  {
    forall a, b :: 0 <= a < b < |jobs| ==>
      jobs[a].experiment != jobs[b].experiment || jobs[a].dest != jobs[b].dest
  }

  lemma AddTraceAt(L: Layout, chn: seq<real>, d: nat, t: seq<real>, c: nat, i: nat)
    requires d < L.numElements && c < L.numElements && i < L.dataBlockSize
    requires |t| == L.dataBlockSize && L.numElements * L.dataBlockSize <= |chn|
    ensures AddTrace(chn, d * L.dataBlockSize, t)[ChnIndex(L, c, i)]
         == chn[ChnIndex(L, c, i)] + (if c == d then t[i] else 0.0)
  {
    var k := ChnIndex(L, c, i);
    var base := d * L.dataBlockSize;
    if base <= k < base + L.dataBlockSize {
      RowMajorUnique(c, i, d, k - base, L.dataBlockSize);
    }
  }

  lemma PutNegatedAt(L: Layout, all: seq<real>, n: nat, d: nat, t: seq<real>, n': nat, c: nat, i: nat)
    requires n < L.numExperiments && d < L.numElements && |t| == L.dataBlockSize
    requires n' < L.numExperiments && c < L.numElements && i < L.dataBlockSize
    requires L.numExperiments * L.numElements * L.dataBlockSize <= |all|
    ensures PutNegated(all, (n * L.numElements + d) * L.dataBlockSize, t)[SlotIndex(L, n', c, i)]
         == if n == n' && c == d then -t[i] else all[SlotIndex(L, n', c, i)]
  {
    var k := SlotIndex(L, n', c, i);
    var base := (n * L.numElements + d) * L.dataBlockSize;
    if base <= k < base + L.dataBlockSize {
      SlotIndexUnique(L, n', c, i, n, d, k - base);
    }
  }

  /** Writing one part of `chndata_all` changes the experiment sum of that
      element only, by the difference at that part. */
  lemma {:induction false} ExpSumAfterPut(L: Layout, all: seq<real>, c: nat, i: nat, m: nat,
                                          n: nat, d: nat, t: seq<real>)
    requires c < L.numElements && i < L.dataBlockSize && m <= L.numExperiments
    requires L.numExperiments * L.numElements * L.dataBlockSize <= |all|
    requires n < L.numExperiments && d < L.numElements && |t| == L.dataBlockSize
    ensures ExpSum(L, PutNegated(all, (n * L.numElements + d) * L.dataBlockSize, t), c, i, m)
         == ExpSum(L, all, c, i, m) + (if c == d && n < m then -t[i] - all[SlotIndex(L, n, d, i)] else 0.0)
  {
    if m > 0 {
      ExpSumAfterPut(L, all, c, i, m - 1, n, d, t);
      PutNegatedAt(L, all, n, d, t, m - 1, c, i);
    }
  }

  /** A step into a still-zero part keeps the buffers consistent. */
  lemma JobKeepsConsistent(L: Layout, st: Buffers, job: Job)
    requires Consistent(L, st) && ValidJob(L, job)
    requires SlotZero(L, st.all, job.experiment, job.dest as nat)
    ensures Consistent(L, ApplyJob(L, st, job))
  {
    var st' := ApplyJob(L, st, job);
    var d: nat := job.dest as nat;
    forall c: nat, i: nat | c < L.numElements && i < L.dataBlockSize
      ensures st'.chn[ChnIndex(L, c, i)] == -ExpSum(L, st'.all, c, i, L.numExperiments)
    {
      AddTraceAt(L, st.chn, d, job.trace, c, i);
      ExpSumAfterPut(L, st.all, c, i, L.numExperiments, job.experiment, d, job.trace);
    }
  }

  /** Steps into distinct, still-zero parts keep the buffers consistent. */
  lemma {:induction false} ApplyJobsKeepConsistent(L: Layout, st: Buffers, jobs: seq<Job>)
    requires Consistent(L, st)
    requires forall k :: 0 <= k < |jobs| ==>
      ValidJob(L, jobs[k]) && SlotZero(L, st.all, jobs[k].experiment, jobs[k].dest as nat)
    requires DistinctSlots(jobs)
    ensures Consistent(L, ApplyJobs(L, st, jobs))
    decreases |jobs|
  {
    if |jobs| > 0 {
      var first := jobs[0];
      var st' := ApplyJob(L, st, first);
      JobKeepsConsistent(L, st, first);
      var rest := jobs[1..];
      forall k | 0 <= k < |rest|
        ensures ValidJob(L, rest[k]) && SlotZero(L, st'.all, rest[k].experiment, rest[k].dest as nat)
      {
        assert rest[k] == jobs[k + 1];
        var n, d := rest[k].experiment, rest[k].dest as nat;
        forall i | 0 <= i < L.dataBlockSize
          ensures st'.all[SlotIndex(L, n, d, i)] == 0.0
        {
          PutNegatedAt(L, st.all, first.experiment, first.dest as nat, first.trace, n, d, i);
        }
      }
      ApplyJobsKeepConsistent(L, st', rest);
    }
  }

  /** Steps that write elsewhere leave a part of `chndata_all` as it was. */
  lemma {:induction false} ApplyJobsKeepOtherSlot(L: Layout, st: Buffers, jobs: seq<Job>, n: nat, d: nat, i: nat)
    requires n < L.numExperiments && d < L.numElements && i < L.dataBlockSize
    requires L.numExperiments * L.numElements * L.dataBlockSize <= |st.all|
    requires forall k :: 0 <= k < |jobs| ==> ValidJob(L, jobs[k])
    requires forall k :: 0 <= k < |jobs| ==> jobs[k].experiment != n || jobs[k].dest != d
    ensures ApplyJobs(L, st, jobs).all[SlotIndex(L, n, d, i)] == st.all[SlotIndex(L, n, d, i)]
    decreases |jobs|
  {
    if |jobs| > 0 {
      var first := jobs[0];
      PutNegatedAt(L, st.all, first.experiment, first.dest as nat, first.trace, n, d, i);
      var rest := jobs[1..];
      assert forall k :: 0 <= k < |rest| ==> rest[k] == jobs[k + 1];
      ApplyJobsKeepOtherSlot(L, ApplyJob(L, st, first), rest, n, d, i);
    }
  }

  /** With distinct parts, each step's part of `chndata_all` ends holding
      that step's negated trace. */
  lemma {:induction false} ApplyJobsStoreNegatedTrace(L: Layout, st: Buffers, jobs: seq<Job>, k: nat, i: nat)
    requires L.numExperiments * L.numElements * L.dataBlockSize <= |st.all|
    requires forall k :: 0 <= k < |jobs| ==> ValidJob(L, jobs[k])
    requires DistinctSlots(jobs)
    requires k < |jobs| && i < L.dataBlockSize
    ensures ValidJob(L, jobs[k])
    ensures ApplyJobs(L, st, jobs).all[SlotIndex(L, jobs[k].experiment, jobs[k].dest as nat, i)] == -jobs[k].trace[i]
    decreases |jobs|
  {
    var first := jobs[0];
    var st' := ApplyJob(L, st, first);
    var rest := jobs[1..];
    assert forall k :: 0 <= k < |rest| ==> rest[k] == jobs[k + 1];
    if k == 0 {
      PutNegatedAt(L, st.all, first.experiment, first.dest as nat, first.trace,
                   first.experiment, first.dest as nat, i);
      ApplyJobsKeepOtherSlot(L, st', rest, first.experiment, first.dest as nat, i);
    } else {
      ApplyJobsStoreNegatedTrace(L, st', rest, k - 1, i);
    }
  }

  /** Both buffers zero, as MATLAB allocates them. */
  function ZeroBuffers(L: Layout): (z: Buffers)
    ensures |z.chn| == L.numElements * L.dataBlockSize
    ensures |z.all| == L.numExperiments * L.numElements * L.dataBlockSize
    ensures forall k :: 0 <= k < |z.chn| ==> z.chn[k] == 0.0
    ensures forall k :: 0 <= k < |z.all| ==> z.all[k] == 0.0
  {
    Buffers(seq(L.numElements * L.dataBlockSize, _ => 0.0),
            seq(L.numExperiments * L.numElements * L.dataBlockSize, _ => 0.0))
  }

  lemma {:induction false} ExpSumOfZeros(L: Layout, all: seq<real>, c: nat, i: nat, m: nat)
    requires c < L.numElements && i < L.dataBlockSize && m <= L.numExperiments
    requires L.numExperiments * L.numElements * L.dataBlockSize <= |all|
    requires forall k :: 0 <= k < |all| ==> all[k] == 0.0
    ensures ExpSum(L, all, c, i, m) == 0.0
  {
    if m > 0 {
      ExpSumOfZeros(L, all, c, i, m - 1);
    }
  }

  lemma ZeroBuffersConsistent(L: Layout)
    ensures Consistent(L, ZeroBuffers(L))
  {
    var z := ZeroBuffers(L);
    forall c: nat, i: nat | c < L.numElements && i < L.dataBlockSize
      ensures z.chn[ChnIndex(L, c, i)] == -ExpSum(L, z.all, c, i, L.numExperiments)
    {
      ExpSumOfZeros(L, z.all, c, i, L.numExperiments);
    }
  }

  /** An injective channel map sends the decoder's steps to distinct parts
      of `chndata_all`, all inside the buffers. */
  lemma AllJobsDistinct(L: Layout, packs: seq<seq<bv32>>, chanMap: seq<real>)
    requires WellFormed(L, packs, chanMap) && DestsInRange(L, chanMap) && MapInjective(L, chanMap)
    ensures forall k :: 0 <= k < |AllJobs(L, packs, chanMap)| ==> ValidJob(L, AllJobs(L, packs, chanMap)[k])
    ensures DistinctSlots(AllJobs(L, packs, chanMap))
  {
    var jobs := AllJobs(L, packs, chanMap);
    StepsLength(L, JobOf(L, packs, chanMap));
    forall k | 0 <= k < |jobs|
      ensures ValidJob(L, jobs[k])
    {
      var p := Decode(L, k);
      AllJobsAt(L, packs, chanMap, p);
      assert InBoard(L, p.board, p.channel, p.firing);
    }
    forall a, b | 0 <= a < b < |jobs|
      ensures jobs[a].experiment != jobs[b].experiment || jobs[a].dest != jobs[b].dest
    {
      var p, p' := Decode(L, a), Decode(L, b);
      AllJobsAt(L, packs, chanMap, p);
      AllJobsAt(L, packs, chanMap, p');
      assert p != p';
      if p.experiment == p'.experiment {
        assert InBoard(L, p.board, p.channel, p.firing) && InBoard(L, p'.board, p'.channel, p'.firing);
      }
    }
  }


  /** Starting from zeroed buffers with an injective channel map in range,
      the decoder leaves `chndata` equal to the negated sum over
      experiments of `chndata_all`. */
  lemma DecoderConsistent(L: Layout, packs: seq<seq<bv32>>, chanMap: seq<real>)
    requires WellFormed(L, packs, chanMap) && DestsInRange(L, chanMap) && MapInjective(L, chanMap)
    ensures Consistent(L, ApplyJobs(L, ZeroBuffers(L), AllJobs(L, packs, chanMap)))
  {
    var jobs := AllJobs(L, packs, chanMap);
    var z := ZeroBuffers(L);
    ZeroBuffersConsistent(L);
    AllJobsDistinct(L, packs, chanMap);
    ApplyJobsKeepConsistent(L, z, jobs);
  }

  /** Under the same conditions, element `Dest` of experiment N in
      `chndata_all` holds the negated centred trace of the board channel and
      firing mapped there. */
  lemma DecoderStoresNegatedTraces(L: Layout, packs: seq<seq<bv32>>, chanMap: seq<real>, p: Point, i: nat)
    requires WellFormed(L, packs, chanMap) && DestsInRange(L, chanMap) && MapInjective(L, chanMap)
    requires InRange(L, p) && i < L.dataBlockSize
    ensures 0 <= Dest(L, chanMap, p.board, p.channel, p.firing) < L.numElements
    ensures ApplyJobs(L, ZeroBuffers(L), AllJobs(L, packs, chanMap))
              .all[SlotIndex(L, p.experiment, Dest(L, chanMap, p.board, p.channel, p.firing) as nat, i)]
         == -Centered(RawTrace(L, packs[p.board], p.experiment, p.firing, p.channel), L.numElements)[i]
  {
    AllJobsDistinct(L, packs, chanMap);
    AllJobsAt(L, packs, chanMap, p);
    ApplyJobsStoreNegatedTrace(L, ZeroBuffers(L), AllJobs(L, packs, chanMap), Encode(L, p), i);
  }
}
