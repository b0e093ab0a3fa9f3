/** Whole-string mode classification: numeric mode (ISO/IEC 18004:2015,
    section 7.4.3) takes only the digits 0-9, alphanumeric mode (section
    7.4.4) takes the 45 symbols 0-9, A-Z, space and $ % * + - . / :. */
module Modes {

  /** The bracketed character class of each classifying pattern. */
  datatype CharClass = NumericClass | AlphanumericClass

  /** `[0-9]` */
  predicate IsDigit(c: char) {
    '0' <= c <= '9'
  }

  /** `[A-Z0-9 $%*+./:-]`: upper-case letters only; the final `-` is a
      literal hyphen, not a range. */
  predicate IsAlphanumericChar(c: char) {
    'A' <= c <= 'Z' || IsDigit(c) || c in " $%*+./:-"
  }

  predicate InClass(cls: CharClass, c: char) {
    match cls
    case NumericClass => IsDigit(c)
    case AlphanumericClass => IsAlphanumericChar(c)
  }

  /** The number of characters `[class]*` consumes from the start of s: the
      longest prefix whose characters all belong to the class. */
  function LeadingRun(cls: CharClass, s: string): (n: nat)
    ensures n <= |s|
    ensures forall i :: 0 <= i < n ==> InClass(cls, s[i])
    ensures n < |s| ==> !InClass(cls, s[n])
  {
    if |s| == 0 || !InClass(cls, s[0]) then 0 else 1 + LeadingRun(cls, s[1..])
  }

  /** `[class]*\Z` matched at the start of s: the run has to end exactly at
      the end of the string. No shorter run can reach the end either, so
      backtracking never changes the verdict. */
  predicate FullMatch(cls: CharClass, s: string) {
    LeadingRun(cls, s) == |s|
  }

  /** The numeric-mode test. */
  predicate IsNumeric(s: string) {
    FullMatch(NumericClass, s)
  }

  /** The alphanumeric-mode test. */
  predicate IsAlphanumeric(s: string) {
    FullMatch(AlphanumericClass, s)
  }

  /** A pattern matches the whole string exactly when every character is in
      its class. */
  lemma FullMatchIff(cls: CharClass, s: string)
    ensures FullMatch(cls, s) <==> forall i :: 0 <= i < |s| ==> InClass(cls, s[i])
  {
  }

  /** A string is numeric exactly when all its characters are ASCII digits;
      in particular the empty string is numeric. */
  lemma NumericIff(s: string)
    ensures IsNumeric(s) <==> forall i :: 0 <= i < |s| ==> '0' <= s[i] <= '9'
    ensures IsNumeric("")
  {
  }

  /** A string is alphanumeric exactly when all its characters are among the
      45 symbols. */
  lemma AlphanumericIff(s: string)
    ensures IsAlphanumeric(s) <==> forall i :: 0 <= i < |s| ==> IsAlphanumericChar(s[i])
    ensures IsAlphanumeric("")
  {
  }

  /** Every numeric string also qualifies for alphanumeric mode, but not the
      other way round. */
  lemma NumericIsAlphanumeric(s: string)
    ensures IsNumeric(s) ==> IsAlphanumeric(s)
    ensures IsAlphanumeric("A") && !IsNumeric("A")
  {
  }

  /** Lower-case letters are outside the alphanumeric set. */
  lemma LowerCaseIsNotAlphanumeric(c: char)
    requires 'a' <= c <= 'z'
    ensures !IsAlphanumericChar(c)
    ensures !IsAlphanumeric([c])
  {
  }

  /** Both tests in a single left-to-right pass over the string. */
  method ScanModes(s: string) returns (numeric: bool, alphanumeric: bool)
    ensures numeric <==> IsNumeric(s)
    ensures alphanumeric <==> IsAlphanumeric(s)
  {
    NumericIff(s);
    AlphanumericIff(s);
    numeric, alphanumeric := true, true;
    var i := 0;
    while i < |s|
      invariant 0 <= i <= |s|
      invariant numeric <==> forall k :: 0 <= k < i ==> IsDigit(s[k])
      invariant alphanumeric <==> forall k :: 0 <= k < i ==> IsAlphanumericChar(s[k])
    {
      numeric := numeric && IsDigit(s[i]);
      alphanumeric := alphanumeric && IsAlphanumericChar(s[i]);
      i := i + 1;
    }
  }
}
