# qrlite parameters — a verified Dafny model

qrlite is a small QR Code encoder. Its parameter file holds the fixed data
that the rest of the encoder reads: the accepted version range (1 to 40), the
error-correction characteristics per level and version, the eight data mask
patterns, the two patterns that decide whether a text fits numeric or
alphanumeric mode, and the value table of the 45 alphanumeric symbols. It also
holds the three penalty weights (3, 10, 40) used when masks are scored. This
project restates each of these in Dafny and proves what the rest of the encoder
relies on.

- `params.dfy` (module `Params`): `MinVersion`, `MaxVersion`, `Penalties` and
  the `IsVersion` range predicate.
- `ecc_tables.dfy` (module `EccTables`): the two tables of ISO/IEC 18004:2015,
  section 7.5.1 (Table 9), as literal rows in the order Low, Medium, Quartile,
  High. `Ecl` is the level and `Ecl.Row` its row. Entry 0 of each row has no
  version; the source stores `None` there, and the model stores
  `Placeholder` (-1). The lookups require `IsVersion`, so they never read it.
- `masks.dfy` (module `Masks`): the eight data masks of section 7.8.2
  (Table 10) as `Mask = M0 | … | M7`. `MaskValue(m, x, y)` takes the column `x`
  and the row `y`, dispatches through a `match`, and gives the integer the
  source computes. A module is inverted when that integer is 0 (`Inverts`).
  `StandardCondition` is the table of the standard, written with row `i` and
  column `j`.
- `modes.dfy` (module `Modes`): `NUMERIC_REGEX` (`[0-9]*\Z`) and
  `ALPHANUMERIC_REGEX` (`[A-Z0-9 $%*+./:-]*\Z`), as a character class lifted
  over a string. `LeadingRun` is what the starred class consumes; `FullMatch`
  adds the `\Z` anchor. `ScanModes` decides both modes in one pass.
- `alphanumeric.dfy` (module `Alphanumeric`): `ALPHANUMERIC_ENCODING_TABLE`
  is the dictionary built by enumerating the 45-symbol string (`Enumerate`).
  `Lookup` returns `None` for a missing key. `StandardValue` is Table 5 of
  section 7.4.4, written out group by group as an independent reference.

The symbol string is written as three literals, one per group of Table 5
(digits, letters, other symbols). Joined together they are the same 45
characters as the source's single literal.

The High block count drops from 34 at version 22 to 30 at version 23. Table 9
of ISO/IEC 18004:2015 publishes the same value: 34 blocks of 24
error-correction codewords. The model keeps every such drop and pins it. It also
proves that the total error correction of a symbol (blocks times codewords
per block) never decreases from one version to the next, and that at every
version it grows strictly from Low to High.

## Model

| member | source | states |
|---|---|---|
| EccTables.EccCodewordsPerBlock | qrlite/params.py:21-37 | for every level and every version 1..40, a block carries between 7 and 30 error-correction codewords |
| EccTables.NumErrorCorrectionBlocks | qrlite/params.py:40-55 | for every level and every version 1..40, the codewords are split into between 1 and 81 blocks |
| EccTables.TableShape | qrlite/params.py:21-55 | both tables have 4 rows of 41 entries; an entry is the placeholder exactly when its index is not a version in MIN_VERSION..MAX_VERSION |
| EccTables.PinnedEndValues | qrlite/params.py:22-54 | version 1 has one block at every level with 7/10/13/17 codewords for L/M/Q/H; version 40 has 25/49/68/81 blocks |
| EccTables.BlockCountNotMonotone | qrlite/params.py:34-54 | these entries are kept as published: High 18 then 16 blocks at versions 15-16 and 34 then 30 at 22-23; Quartile 16 then 12 at 14-15, 17 then 16 at 16-17 and 21 then 20 at 19-20; High 24 then 30 codewords per block at 22-23 |
| EccTables.BlockCountDropsExactly | qrlite/params.py:40-55 | the block count goes down from version v to v+1 exactly at Quartile 14, 16, 19 and High 15, 22; at Low and Medium it never goes down |
| EccTables.TotalEccNondecreasing | qrlite/params.py:21-55 | blocks times codewords per block never decreases from version v to v+1; it strictly increases for M, Q and H, and for L it stays equal exactly at 20-21 and 34-35 |
| EccTables.TotalEccIncreasesWithLevel | qrlite/params.py:21-55 | at every version the total error correction strictly increases from Low to Medium to Quartile to High |
| Masks.MaskValue | qrlite/params.py:58-67 | every pattern is a natural number; masks 0, 1, 4, 6, 7 give 0 or 1, masks 2 and 3 give at most 2, mask 5 at most 3 |
| Masks.MaskOf | qrlite/params.py:58-67 | each reference 0..7 selects the pattern with that reference |
| Masks.MaskCount | qrlite/params.py:58-67 | there are exactly eight patterns, one per reference, and every pattern appears at its own reference |
| Masks.InvertsMatchesStandard | qrlite/params.py:59-66 | with x the column and y the row, a pattern is 0 exactly when the standard's Table 10 condition for row y and column x holds |
| Masks.Mask5ZeroIff | qrlite/params.py:64 | mask 5 is 0 exactly when x*y is a multiple of 6 |
| Masks.Mask6ZeroIff | qrlite/params.py:65 | mask 6 is 0 exactly when x*y leaves 0, 1 or 2 modulo 6 |
| Masks.Mask6IsMask5Parity | qrlite/params.py:64-65 | mask 6 equals mask 5 reduced modulo 2 |
| Masks.SingleAxisMasks | qrlite/params.py:60-61 | mask 1 does not depend on the column and mask 2 does not depend on the row |
| Masks.SymmetricIff | qrlite/params.py:59-66 | a pattern is unchanged by swapping x and y exactly when it is mask 0, 3, 5, 6 or 7 |
| Masks.Periodic | qrlite/params.py:59-66 | every pattern repeats after 12 columns and after 12 rows |
| Modes.LeadingRun | qrlite/params.py:70-74 | the starred class consumes a prefix whose characters are all in the class and stops at the first character outside it |
| Modes.FullMatchIff | qrlite/params.py:70-74 | a class pattern anchored by \Z matches exactly when every character of the string is in the class |
| Modes.NumericIff | qrlite/params.py:69-70 | a string is numeric exactly when every character is an ASCII digit; the empty string is numeric |
| Modes.AlphanumericIff | qrlite/params.py:72-74 | a string is alphanumeric exactly when every character is among 0-9, A-Z, space and $%*+./:-; the empty string is alphanumeric |
| Modes.NumericIsAlphanumeric | qrlite/params.py:70-74 | every numeric string is alphanumeric; "A" is alphanumeric but not numeric |
| Modes.LowerCaseIsNotAlphanumeric | qrlite/params.py:72-74 | lower-case letters are not in the alphanumeric class, so no string containing one is alphanumeric |
| Modes.ScanModes | qrlite/params.py:69-74 | one pass over the string returns both verdicts, each equal to its full-string pattern match |
| Alphanumeric.Enumerate | qrlite/params.py:77-78 | the dictionary's keys are exactly the characters of the string; each maps to a position holding that character, and to the last such position |
| Alphanumeric.Lookup | qrlite/params.py:76-78 | a character has a value exactly when it is one of the 45 symbols, and the value is its position in the symbol string |
| Alphanumeric.CharsetFollowsStandard | qrlite/params.py:78 | the symbol string has 45 characters, and position i holds the symbol Table 5 assigns the value i |
| Alphanumeric.LookupMatchesStandard | qrlite/params.py:76-78 | on every character the table agrees with Table 5, including the characters with no value |
| Alphanumeric.DomainIsAlphanumericClass | qrlite/params.py:74-78 | the table has an entry for a character exactly when the alphanumeric pattern's class accepts it |
| Alphanumeric.TableIsBijection | qrlite/params.py:77-78 | the table maps its 45 keys one-to-one onto 0..44 |
| Alphanumeric.DigitValue | qrlite/params.py:76-78 | each digit maps to its own numeric value |
| Alphanumeric.PinnedValues | qrlite/params.py:76-78 | 'A' maps to 10, 'Z' to 35, '$' to 37 and ':' to 44 |
| Alphanumeric.LowerCaseHasNoValue | qrlite/params.py:74-78 | lower-case letters have no entry in the table |

`Params.IsVersion` (qrlite/params.py:14-15), `Modes.IsNumeric`
(qrlite/params.py:70) and `Modes.IsAlphanumeric` (qrlite/params.py:74) are
predicates with no contract of their own. The rows for
`EccTables.TableShape`, `Modes.NumericIff` and `Modes.AlphanumericIff` state
their meaning. `Params.Penalties` (qrlite/params.py:18) is a plain constant
holding the three weights 3, 10 and 40.

## Left out

- How the regexes are called is not part of this model. They are modelled as
  matched from the start of the string (Python's `match`). The `[..]*` run is
  greedy, and the `\Z` anchor requires that run to reach the very end, so a
  trailing newline is not accepted. The rest of the `re` engine is not
  modelled.
- Python's `None` entries and the untyped tuples: `None` becomes
  `Placeholder`, and integer level indices become the `Ecl` datatype. An index
  outside 0..3 or outside 0..40 cannot be expressed.
- MaskValue: coordinates are natural numbers. Python's floor division and
  modulo on negative coordinates are not modelled, since module coordinates
  are never negative.
- `_PENALTIES` is modelled only as the constant `Penalties`. The penalty
  scoring that reads it is not part of this model.
- The places that consume the masks (the zero-means-invert test applied to the
  matrix, the XOR, the format bits) are not part of this model. `Inverts`
  states only the reading that the standard gives a zero value.
- Table identities that involve the total number of codewords per version are
  not modelled. The function that computes the total from the symbol's module
  count is not part of this model.
- Reed-Solomon arithmetic, segment bit packing, version selection, module
  placement and rendering are not part of this model.
