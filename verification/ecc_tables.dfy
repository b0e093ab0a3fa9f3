/** The error-correction characteristics of ISO/IEC 18004:2015, section 7.5.1
    (Table 9): for each error-correction level and version, the number of
    error-correction codewords in one block and the number of blocks. */
module EccTables {
  import opened Params

  /** Error-correction level, in order of increasing redundancy. */
  datatype Ecl = Low | Medium | Quartile | High {
    /** The row of the tables that belongs to this level. */
    function Row(): (r: nat)
      ensures r < 4
    {
      match this
      case Low => 0
      case Medium => 1
      case Quartile => 2
      case High => 3
    }
  }

  /** Stands for the unused entry at index 0 of every row (there is no
      version 0); every real entry is positive. */
  const Placeholder: int := -1

  const EccPerBlockLow: seq<int> :=
    [Placeholder, 7, 10, 15, 20, 26, 18, 20, 24, 30, 18, 20, 24, 26, 30, 22, 24, 28,
     30, 28, 28, 28, 28, 30, 30, 26, 28, 30, 30, 30, 30, 30, 30, 30, 30, 30, 30,
     30, 30, 30, 30]
  const EccPerBlockMedium: seq<int> :=
    [Placeholder, 10, 16, 26, 18, 24, 16, 18, 22, 22, 26, 30, 22, 22, 24, 24, 28, 28,
     26, 26, 26, 26, 28, 28, 28, 28, 28, 28, 28, 28, 28, 28, 28, 28, 28, 28, 28,
     28, 28, 28, 28]
  const EccPerBlockQuartile: seq<int> :=
    [Placeholder, 13, 22, 18, 26, 18, 24, 18, 22, 20, 24, 28, 26, 24, 20, 30, 24, 28,
     28, 26, 30, 28, 30, 30, 30, 30, 28, 30, 30, 30, 30, 30, 30, 30, 30, 30, 30,
     30, 30, 30, 30]
  const EccPerBlockHigh: seq<int> :=
    [Placeholder, 17, 28, 22, 16, 22, 28, 26, 26, 24, 28, 24, 28, 22, 24, 24, 30, 28,
     28, 26, 28, 30, 24, 30, 30, 30, 30, 30, 30, 30, 30, 30, 30, 30, 30, 30, 30,
     30, 30, 30, 30]

  /** Error-correction codewords per block, indexed [level row][version]. */
  const EccCodewordsPerBlockTable: seq<seq<int>> :=
    [EccPerBlockLow, EccPerBlockMedium, EccPerBlockQuartile, EccPerBlockHigh]

  const BlocksLow: seq<int> :=
    [Placeholder, 1, 1, 1, 1, 1, 2, 2, 2, 2, 4, 4, 4, 4, 4, 6, 6, 6, 6, 7, 8, 8, 9, 9,
     10, 12, 12, 12, 13, 14, 15, 16, 17, 18, 19, 19, 20, 21, 22, 24, 25]
  const BlocksMedium: seq<int> :=
    [Placeholder, 1, 1, 1, 2, 2, 4, 4, 4, 5, 5, 5, 8, 9, 9, 10, 10, 11, 13, 14, 16, 17,
     17, 18, 20, 21, 23, 25, 26, 28, 29, 31, 33, 35, 37, 38, 40, 43, 45, 47,
     49]
  const BlocksQuartile: seq<int> :=
    [Placeholder, 1, 1, 2, 2, 4, 4, 6, 6, 8, 8, 8, 10, 12, 16, 12, 17, 16, 18, 21, 20,
     23, 23, 25, 27, 29, 34, 34, 35, 38, 40, 43, 45, 48, 51, 53, 56, 59, 62, 65,
     68]
  const BlocksHigh: seq<int> :=
    [Placeholder, 1, 1, 2, 4, 4, 4, 5, 6, 8, 8, 11, 11, 16, 16, 18, 16, 19, 21, 25, 25,
     25, 34, 30, 32, 35, 37, 40, 42, 45, 48, 51, 54, 57, 60, 63, 66, 70, 74, 77,
     81]

  /** Number of error-correction blocks, indexed [level row][version]. */
  const NumErrorCorrectionBlocksTable: seq<seq<int>> :=
    [BlocksLow, BlocksMedium, BlocksQuartile, BlocksHigh]

  /** Error-correction codewords in each block of a symbol. */
  function EccCodewordsPerBlock(ecl: Ecl, v: int): (n: int)
    requires IsVersion(v)
    ensures 7 <= n <= 30
  {
    EccCodewordsPerBlockTable[ecl.Row()][v]
  }

  /** Number of error-correction blocks the codewords of a symbol are split into. */
  function NumErrorCorrectionBlocks(ecl: Ecl, v: int): (n: int)
    requires IsVersion(v)
    ensures 1 <= n <= 81
  {
    NumErrorCorrectionBlocksTable[ecl.Row()][v]
  }

  /** All error-correction codewords of a symbol: every block carries the
      same number of them. */
  function TotalEccCodewords(ecl: Ecl, v: int): int
    requires IsVersion(v)
  {
    EccCodewordsPerBlock(ecl, v) * NumErrorCorrectionBlocks(ecl, v)
  }

  /** Both tables have one row per level and one entry per version plus the
      unused entry 0; the placeholder sits at index 0 and nowhere else. */
  lemma TableShape()
    ensures |EccCodewordsPerBlockTable| == 4 && |NumErrorCorrectionBlocksTable| == 4
    ensures forall r :: 0 <= r < 4 ==>
      |EccCodewordsPerBlockTable[r]| == MaxVersion + 1 && |NumErrorCorrectionBlocksTable[r]| == MaxVersion + 1
    ensures forall r, i :: 0 <= r < 4 && 0 <= i <= MaxVersion ==>
      (EccCodewordsPerBlockTable[r][i] != Placeholder <==> IsVersion(i))
    ensures forall r, i :: 0 <= r < 4 && 0 <= i <= MaxVersion ==>
      (NumErrorCorrectionBlocksTable[r][i] != Placeholder <==> IsVersion(i))
  {
    forall r, i | 0 <= r < 4 && 0 <= i <= MaxVersion
      ensures EccCodewordsPerBlockTable[r][i] != Placeholder <==> IsVersion(i)
      ensures NumErrorCorrectionBlocksTable[r][i] != Placeholder <==> IsVersion(i)
    {
      var ecl := [Low, Medium, Quartile, High][r];
      assert ecl.Row() == r;
      if IsVersion(i) {
        assert EccCodewordsPerBlock(ecl, i) > 0 && NumErrorCorrectionBlocks(ecl, i) > 0;
      }
    }
  }

  /** Version 1 has a single block at every level, and the levels differ only
      in its size; version 40 has the most blocks. */
  lemma PinnedEndValues()
    ensures forall ecl: Ecl :: NumErrorCorrectionBlocks(ecl, 1) == 1
    ensures EccCodewordsPerBlock(Low, 1) == 7 && EccCodewordsPerBlock(Medium, 1) == 10
    ensures EccCodewordsPerBlock(Quartile, 1) == 13 && EccCodewordsPerBlock(High, 1) == 17
    ensures NumErrorCorrectionBlocks(Low, 40) == 25 && NumErrorCorrectionBlocks(Medium, 40) == 49
    ensures NumErrorCorrectionBlocks(Quartile, 40) == 68 && NumErrorCorrectionBlocks(High, 40) == 81
  {
  }

  /** The block count is not monotone in the version: these entries are the
      published values and must not be "smoothed" from their neighbours. */
  lemma BlockCountNotMonotone()
    ensures NumErrorCorrectionBlocks(High, 15) == 18 && NumErrorCorrectionBlocks(High, 16) == 16
    ensures NumErrorCorrectionBlocks(High, 22) == 34 && NumErrorCorrectionBlocks(High, 23) == 30
    ensures NumErrorCorrectionBlocks(Quartile, 14) == 16 && NumErrorCorrectionBlocks(Quartile, 15) == 12
    ensures NumErrorCorrectionBlocks(Quartile, 16) == 17 && NumErrorCorrectionBlocks(Quartile, 17) == 16
    ensures NumErrorCorrectionBlocks(Quartile, 19) == 21 && NumErrorCorrectionBlocks(Quartile, 20) == 20
    ensures EccCodewordsPerBlock(High, 22) == 24 && EccCodewordsPerBlock(High, 23) == 30
  {
  }

  /** The five drops above are the only places where the block count goes
      down from one version to the next. */
  lemma BlockCountDropsExactly(ecl: Ecl, v: int)
    requires MinVersion <= v < MaxVersion
    ensures NumErrorCorrectionBlocks(ecl, v + 1) < NumErrorCorrectionBlocks(ecl, v) <==>
      (ecl == Quartile && (v == 14 || v == 16 || v == 19)) || (ecl == High && (v == 15 || v == 22))
  {
    match ecl
    case Low => LowBlocksStep(v);
    case Medium => MediumBlocksStep(v);
    case Quartile => QuartileBlocksStep(v);
    case High => HighBlocksStep(v);
  }

  lemma LowBlocksStep(v: int)
    requires MinVersion <= v < MaxVersion
    ensures BlocksLow[v] <= BlocksLow[v + 1]
  {
  }

  lemma MediumBlocksStep(v: int)
    requires MinVersion <= v < MaxVersion
    ensures BlocksMedium[v] <= BlocksMedium[v + 1]
  {
  }

  lemma QuartileBlocksStep(v: int)
    requires MinVersion <= v < MaxVersion
    ensures BlocksQuartile[v + 1] < BlocksQuartile[v] <==> v == 14 || v == 16 || v == 19
  {
  }

  lemma HighBlocksStep(v: int)
    requires MinVersion <= v < MaxVersion
    ensures BlocksHigh[v + 1] < BlocksHigh[v] <==> v == 15 || v == 22
  {
  }

  /** Although single entries go down, the total amount of error correction
      never shrinks from one version to the next, and grows strictly at every
      level but Low (which stays level from 20 to 21 and from 34 to 35). */
  lemma TotalEccNondecreasing(ecl: Ecl, v: int)
    requires MinVersion <= v < MaxVersion
    ensures TotalEccCodewords(ecl, v) <= TotalEccCodewords(ecl, v + 1)
    ensures ecl != Low ==> TotalEccCodewords(ecl, v) < TotalEccCodewords(ecl, v + 1)
    ensures ecl == Low ==>
      (TotalEccCodewords(ecl, v) == TotalEccCodewords(ecl, v + 1) <==> v == 20 || v == 34)
  {
    match ecl
    case Low =>
      LowTotalsStep(v);
      if v != 20 && v != 34 {
        LowTotalsStrictStep(v);
      }
    case Medium => MediumTotalsStep(v);
    case Quartile => QuartileTotalsStep(v);
    case High => HighTotalsStep(v);
  }

  // One row at a time: the products of the literal rows, version by version.

  lemma LowTotalsStep(v: int)
    requires MinVersion <= v < MaxVersion
    ensures EccPerBlockLow[v] * BlocksLow[v] <= EccPerBlockLow[v + 1] * BlocksLow[v + 1]
  {
  }

  lemma LowTotalsStrictStep(v: int)
    requires MinVersion <= v < MaxVersion && v != 20 && v != 34
    ensures EccPerBlockLow[v] * BlocksLow[v] < EccPerBlockLow[v + 1] * BlocksLow[v + 1]
  {
  }

  lemma MediumTotalsStep(v: int)
    requires MinVersion <= v < MaxVersion
    ensures EccPerBlockMedium[v] * BlocksMedium[v] < EccPerBlockMedium[v + 1] * BlocksMedium[v + 1]
  {
  }

  lemma QuartileTotalsStep(v: int)
    requires MinVersion <= v < MaxVersion
    ensures EccPerBlockQuartile[v] * BlocksQuartile[v] < EccPerBlockQuartile[v + 1] * BlocksQuartile[v + 1]
  {
  }

  lemma HighTotalsStep(v: int)
    requires MinVersion <= v < MaxVersion
    ensures EccPerBlockHigh[v] * BlocksHigh[v] < EccPerBlockHigh[v + 1] * BlocksHigh[v + 1]
  {
  }

  /** At every version a higher level carries strictly more error correction. */
  lemma TotalEccIncreasesWithLevel(v: int)
    requires IsVersion(v)
    ensures TotalEccCodewords(Low, v) < TotalEccCodewords(Medium, v)
    ensures TotalEccCodewords(Medium, v) < TotalEccCodewords(Quartile, v)
    ensures TotalEccCodewords(Quartile, v) < TotalEccCodewords(High, v)
  {
    LowBelowMedium(v);
    MediumBelowQuartile(v);
    QuartileBelowHigh(v);
  }

  lemma LowBelowMedium(v: int)
    requires IsVersion(v)
    ensures EccPerBlockLow[v] * BlocksLow[v] < EccPerBlockMedium[v] * BlocksMedium[v]
  {
  }

  lemma MediumBelowQuartile(v: int)
    requires IsVersion(v)
    ensures EccPerBlockMedium[v] * BlocksMedium[v] < EccPerBlockQuartile[v] * BlocksQuartile[v]
  {
  }

  lemma QuartileBelowHigh(v: int)
    requires IsVersion(v)
    ensures EccPerBlockQuartile[v] * BlocksQuartile[v] < EccPerBlockHigh[v] * BlocksHigh[v]
  {
  }
}
