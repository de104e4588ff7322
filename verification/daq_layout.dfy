/** How the DAQ boards pack samples (daq_loop_imp_c/daq_loop_imp.c and
    old_codes/daq_loop.c): three 10-bit samples per 32-bit word, and six
    packs per firing that together carry the 32 channels of a board. */
module DaqLayout {

  /** The `hex3ff` mask: one 10-bit sample. */
  const SAMPLE_MASK: bv32 := 0x3FF

  /** Number of packs per firing and channels per board. */
  const PACKS: nat := 6
  const BOARD_CHANNELS: nat := 32

  /** Sample `k` (0, 1 or 2) of a word: bits 10k .. 10k+9. */
  function FieldBits(w: bv32, k: nat): bv32
    requires k < 3
  {
    if k == 0 then w & SAMPLE_MASK
    else if k == 1 then (w >> 10) & SAMPLE_MASK
    else (w >> 20) & SAMPLE_MASK
  }

  /** The decoded value of sample `k` of a word, in 0..1023. */
  function Field(w: bv32, k: nat): (v: nat)
    requires k < 3
    ensures v < 1024
  {
    FieldMasked(w, k);
    FieldBits(w, k) as nat
  }

  lemma FieldMasked(w: bv32, k: nat)
    requires k < 3
    ensures FieldBits(w, k) <= SAMPLE_MASK
  {
  }

  /** The three samples are bits 0..29 of the word laid side by side. */
  lemma FieldsRecompose(w: bv32)
    ensures FieldBits(w, 0) | (FieldBits(w, 1) << 10) | (FieldBits(w, 2) << 20) == w & 0x3FFF_FFFF
  {
  }

  /** Bits 30 and 31 reach no sample: words that differ only there decode
      alike. */
  lemma TopBitsIgnored(w: bv32, w': bv32, k: nat)
    requires k < 3
    requires w & 0x3FFF_FFFF == w' & 0x3FFF_FFFF
    ensures Field(w, k) == Field(w', k)
  {
    assert FieldBits(w, k) == FieldBits(w', k);
  }

  /** The C code shifts the word after casting it to a signed `int`, which
      on the targeted compilers is an arithmetic shift (the sign bit is
      copied in from the left). */
  function ArithShiftRight(w: bv32, n: bv32): bv32
    requires n < 32
  {
    if w & 0x8000_0000 == 0 then w >> n else !((!w) >> n)
  }

  /** The copied-in sign bits never reach the ten bits kept by the mask, so
      the logical shift of `FieldBits` decodes the same samples. */
  lemma SignedShiftKeepsMiddleField(w: bv32)
    ensures ArithShiftRight(w, 10) & SAMPLE_MASK == FieldBits(w, 1)
  {
  }

  lemma SignedShiftKeepsTopField(w: bv32)
    ensures ArithShiftRight(w, 20) & SAMPLE_MASK == FieldBits(w, 2)
  {
  }

  /** Channels carried by pack `i`: packs 2 and 5 carry four, the rest six. */
  function PackWidth(i: nat): nat
    requires i < PACKS
  {
    if i != 2 && i != 5 then 6 else 4
  }

  /** First channel of pack `i`: the C code's `channel`, which starts at 0
      for each firing and grows by the width of each pack. */
  function PackStart(i: nat): nat
    requires i <= PACKS
  {
    if i == 0 then 0 else PackStart(i - 1) + PackWidth(i - 1)
  }

  /** The six packs fill exactly the 32 channels of a board. */
  lemma PacksFillBoard()
    ensures PackStart(PACKS) == BOARD_CHANNELS
    ensures PackStart(1) == 6 && PackStart(2) == 12 && PackStart(3) == 16
    ensures PackStart(4) == 22 && PackStart(5) == 28
  {
  }

  /** The pack that carries channel `ch`. */
  function PackOf(ch: nat): (i: nat)
    requires ch < BOARD_CHANNELS
    ensures i < PACKS && PackStart(i) <= ch < PackStart(i) + PackWidth(i)
  {
    PacksFillBoard();
    if ch < 6 then 0 else if ch < 12 then 1 else if ch < 16 then 2
    else if ch < 22 then 3 else if ch < 28 then 4 else 5
  }

  /** Each channel of a pack is carried by that pack and no other: together
      with the ensures of `PackOf`, channels and (pack, offset) pairs are in
      one-to-one correspondence, so each channel is written once per firing. */
  lemma PackOfInverse(i: nat, off: nat)
    requires i < PACKS && off < PackWidth(i)
    ensures PackStart(i) + off < BOARD_CHANNELS
    ensures PackOf(PackStart(i) + off) == i
  {
    PacksFillBoard();
  }

  /** Offset of channel `ch` within its pack. */
  function PackOffset(ch: nat): nat
    requires ch < BOARD_CHANNELS
  {
    ch - PackStart(PackOf(ch))
  }

  /** The word of a sample pair that carries channel `ch`: the even word
      (0) carries offsets 0, 2, 4 of a pack, the odd word (1) offsets 1, 3, 5. */
  function Lane(ch: nat): nat
    requires ch < BOARD_CHANNELS
  {
    PackOffset(ch) % 2
  }

  /** Which of the three samples of that word is channel `ch`. */
  function Slot(ch: nat): (k: nat)
    requires ch < BOARD_CHANNELS
    ensures k < 3
  {
    PackOffset(ch) / 2
  }

  /** Offset `off` of pack `i` is the channel at that offset. */
  lemma LaneAndSlotInPack(i: nat, off: nat)
    requires i < PACKS && off < PackWidth(i)
    ensures PackStart(i) + off < BOARD_CHANNELS
    ensures Lane(PackStart(i) + off) == off % 2 && Slot(PackStart(i) + off) == off / 2
  {
    PackOfInverse(i, off);
    assert PackOffset(PackStart(i) + off) == off;
  }

  /** Channel `ch` is sample `Slot(ch)` of word `Lane(ch)`, and the last two
      slots are used only by six-channel packs. */
  lemma LaneAndSlotOfChannel(ch: nat)
    requires ch < BOARD_CHANNELS
    ensures PackOffset(ch) == 2 * Slot(ch) + Lane(ch) && Lane(ch) < 2
    ensures Slot(ch) == 2 ==> PackWidth(PackOf(ch)) == 6
  {
  }
}
