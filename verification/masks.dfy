/** The eight data mask patterns of ISO/IEC 18004:2015, section 7.8.2
    (Table 10). A pattern maps a module at column x, row y to a small
    integer; the module is inverted when that integer is 0. */
module Masks {

  /** A mask pattern reference, 0 to 7. */
  datatype Mask = M0 | M1 | M2 | M3 | M4 | M5 | M6 | M7 {
    /** The 3-bit pattern reference written into the format information. */
    function Id(): (k: nat)
      ensures k < 8
    {
      match this
      case M0 => 0
      case M1 => 1
      case M2 => 2
      case M3 => 3
      case M4 => 4
      case M5 => 5
      case M6 => 6
      case M7 => 7
    }
  }

  /** The masks in order of their reference. */
  const AllMasks: seq<Mask> := [M0, M1, M2, M3, M4, M5, M6, M7]

  /** The mask with the given reference; a reference outside 0..7 names no
      mask. */
  function MaskOf(k: int): (m: Mask)
    requires 0 <= k < 8
    ensures m.Id() == k
  {
    AllMasks[k]
  }

  /** The pattern's value at column x, row y. */
  function MaskValue(m: Mask, x: nat, y: nat): (r: nat)
    ensures r <= 3
    ensures m in {M0, M1, M4, M6, M7} ==> r <= 1
    ensures m in {M2, M3} ==> r <= 2
  {
    match m
    case M0 => (x + y) % 2
    case M1 => y % 2
    case M2 => x % 3
    case M3 => (x + y) % 3
    case M4 => (x / 3 + y / 2) % 2
    case M5 => x * y % 2 + x * y % 3
    case M6 => (x * y % 2 + x * y % 3) % 2
    case M7 => ((x + y) % 2 + x * y % 3) % 2
  }

  /** The module at column x, row y is inverted under m. */
  predicate Inverts(m: Mask, x: nat, y: nat) {
    MaskValue(m, x, y) == 0
  }

  /** The mask conditions as Table 10 of ISO/IEC 18004:2015 writes them, with
      i the row and j the column of the module. */
  predicate StandardCondition(m: Mask, i: nat, j: nat) {
    match m
    case M0 => (i + j) % 2 == 0
    case M1 => i % 2 == 0
    case M2 => j % 3 == 0
    case M3 => (i + j) % 3 == 0
    case M4 => ((i / 2) + (j / 3)) % 2 == 0
    case M5 => (i * j) % 2 + (i * j) % 3 == 0
    case M6 => ((i * j) % 2 + (i * j) % 3) % 2 == 0
    case M7 => ((i * j) % 3 + (i + j) % 2) % 2 == 0
  }

  /** There are exactly eight patterns, one per reference. */
  lemma MaskCount()
    ensures |AllMasks| == 8
    ensures forall k :: 0 <= k < 8 ==> AllMasks[k].Id() == k
    ensures forall m: Mask :: AllMasks[m.Id()] == m
  {
  }

  /** With x the column and y the row, a module is inverted exactly when the
      standard's condition for its row and column holds. */
  lemma InvertsMatchesStandard(m: Mask, x: nat, y: nat)
    ensures Inverts(m, x, y) <==> StandardCondition(m, y, x)
  {
  }

  /** The residues of n modulo 2 and 3 are fixed by its residue modulo 6. */
  lemma ModSixSplit(n: nat)
    ensures n % 2 == (n % 6) % 2 && n % 3 == (n % 6) % 3
  {
    assert n == n % 6 + 6 * (n / 6);
    ShiftBySix(n % 6, n / 6);
  }

  /** Pattern 5 inverts exactly the modules whose coordinate product is a
      multiple of 6. */
  lemma Mask5ZeroIff(x: nat, y: nat)
    ensures MaskValue(M5, x, y) == 0 <==> (x * y) % 6 == 0
  {
    ModSixSplit(x * y);
  }

  /** Pattern 6 inverts exactly the modules whose coordinate product leaves
      0, 1 or 2 modulo 6. */
  lemma Mask6ZeroIff(x: nat, y: nat)
    ensures MaskValue(M6, x, y) == 0 <==> (x * y) % 6 < 3
  {
    ModSixSplit(x * y);
  }

  /** Pattern 6 is pattern 5 reduced modulo 2. */
  lemma Mask6IsMask5Parity(x: nat, y: nat)
    ensures MaskValue(M6, x, y) == MaskValue(M5, x, y) % 2
  {
  }

  /** Pattern 1 depends on the row only, pattern 2 on the column only. */
  lemma SingleAxisMasks(x: nat, x': nat, y: nat, y': nat)
    ensures MaskValue(M1, x, y) == MaskValue(M1, x', y)
    ensures MaskValue(M2, x, y) == MaskValue(M2, x, y')
  {
  }

  /** The pattern looks the same when the symbol is mirrored on its main
      diagonal. */
  ghost predicate Symmetric(m: Mask) {
    forall x: nat, y: nat :: MaskValue(m, x, y) == MaskValue(m, y, x)
  }

  /** Patterns 0, 3, 5, 6 and 7 are symmetric in row and column; 1, 2 and 4
      are not. */
  lemma SymmetricIff(m: Mask)
    ensures Symmetric(m) <==> m in {M0, M3, M5, M6, M7}
  {
    match m
    case M1 => assert MaskValue(M1, 0, 1) != MaskValue(M1, 1, 0);
    case M2 => assert MaskValue(M2, 0, 1) != MaskValue(M2, 1, 0);
    case M4 => assert MaskValue(M4, 0, 2) != MaskValue(M4, 2, 0);
    case _ =>
      forall x: nat, y: nat ensures MaskValue(m, x, y) == MaskValue(m, y, x) {
        assert x * y == y * x;
      }
  }

  /** Every pattern repeats every 12 modules along both axes, so a 12 by 12
      tile determines it. */
  lemma Periodic(m: Mask, x: nat, y: nat)
    ensures MaskValue(m, x + 12, y) == MaskValue(m, x, y)
    ensures MaskValue(m, x, y + 12) == MaskValue(m, x, y)
  {
    ColumnPeriodic(m, x, y);
    RowPeriodic(m, x, y);
  }

  /** Shifting 12 columns right leaves every pattern unchanged. */
  lemma ColumnPeriodic(m: Mask, x: nat, y: nat)
    ensures MaskValue(m, x + 12, y) == MaskValue(m, x, y)
  {
    match m
    case M0 => ShiftBySix(x + y, 2);
    case M1 =>
    case M2 => ShiftBySix(x, 2);
    case M3 => ShiftBySix(x + y, 2);
    case M4 => assert (x + 12) / 3 == x / 3 + 4;
    case _ => ProductMaskColumnPeriodic(m, x, y);
  }

  /** Patterns 5, 6 and 7 see the column only through the coordinate
      product (and, for 7, the coordinate sum). */
  lemma ProductMaskColumnPeriodic(m: Mask, x: nat, y: nat)
    requires m in {M5, M6, M7}
    ensures MaskValue(m, x + 12, y) == MaskValue(m, x, y)
  {
    var p, q := x * y, (x + 12) * y;
    ProductPeriodic(x, y);
    ShiftBySix(x + y, 2);
    assert p % 2 == q % 2 && p % 3 == q % 3;
  }

  /** Shifting 12 rows down leaves every pattern unchanged. */
  lemma RowPeriodic(m: Mask, x: nat, y: nat)
    ensures MaskValue(m, x, y + 12) == MaskValue(m, x, y)
  {
    match m
    case M0 => ShiftBySix(x + y, 2);
    case M1 => ShiftBySix(y, 2);
    case M2 =>
    case M3 => ShiftBySix(x + y, 2);
    case M4 => assert (y + 12) / 2 == y / 2 + 6;
    case _ => ProductMaskRowPeriodic(m, x, y);
  }

  /** Patterns 5, 6 and 7 see the row only through the coordinate product
      (and, for 7, the coordinate sum). */
  lemma ProductMaskRowPeriodic(m: Mask, x: nat, y: nat)
    requires m in {M5, M6, M7}
    ensures MaskValue(m, x, y + 12) == MaskValue(m, x, y)
  {
    var p, q := x * y, x * (y + 12);
    ProductPeriodicRow(x, y);
    ShiftBySix(x + y, 2);
    assert p % 2 == q % 2 && p % 3 == q % 3;
  }

  /** The same for 12 rows. */
  lemma ProductPeriodicRow(x: nat, y: nat)
    ensures x * (y + 12) % 2 == x * y % 2 && x * (y + 12) % 3 == x * y % 3
  {
    var p := x * y;
    assert x * (y + 12) == p + 6 * (2 * x);
    ShiftBySix(p, 2 * x);
  }

  /** The residues modulo 2 and 3 of the coordinate product repeat every 12
      columns. */
  lemma ProductPeriodic(x: nat, y: nat)
    ensures (x + 12) * y % 2 == x * y % 2 && (x + 12) * y % 3 == x * y % 3
  {
    var p := x * y;
    assert (x + 12) * y == p + 6 * (2 * y);
    ShiftBySix(p, 2 * y);
  }

  /** Adding a multiple of 6 keeps the residues modulo 2 and 3. */
  lemma {:induction false} ShiftBySix(n: nat, k: nat)
    ensures (n + 6 * k) % 2 == n % 2 && (n + 6 * k) % 3 == n % 3
  {
    if k > 0 {
      var m := n + 6 * (k - 1);
      ShiftBySix(n, k - 1);
      assert n + 6 * k == m + 6;
      assert (m + 6) % 2 == m % 2 && (m + 6) % 3 == m % 3;
    }
  }
}
