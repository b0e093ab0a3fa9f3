/** The alphanumeric-mode character values of ISO/IEC 18004:2015, section
    7.4.4 (Table 5), as a dictionary built from the 45 symbols in value
    order. */
module Alphanumeric {
  import opened Modes

  /** A dictionary lookup: `None` is a missing key. */
  datatype Option<T> = None | Some(value: T)

  /** The 45 symbols in order of their value, written as the digits, the
      letters and the nine other symbols one after the other. */
  const Charset: string := "0123456789" + "ABCDEFGHIJKLMNOPQRSTUVWXYZ" + " $%*+-./:"

  /** The dictionary that enumerating s builds: every character maps to its
      position, a later occurrence replacing an earlier one. */
  function Enumerate(s: string): (t: map<char, nat>)
    ensures forall c :: c in t <==> c in s
    ensures forall c :: c in t ==> t[c] < |s| && s[t[c]] == c
    ensures forall c, j :: c in t && t[c] < j < |s| ==> s[j] != c
  {
    if |s| == 0 then map[]
    else
      var init := s[..|s| - 1];
      assert s == init + [s[|s| - 1]];
      Enumerate(init)[s[|s| - 1] := |s| - 1]
  }

  /** The encoding table, from each symbol to its value. */
  const EncodingTable: map<char, nat> := Enumerate(Charset)

  /** The value of c, or `None` when c has no entry. */
  function Lookup(c: char): (r: Option<nat>)
    ensures r.Some? <==> c in Charset
    ensures r.Some? ==> r.value < |Charset| && Charset[r.value] == c
  {
    if c in EncodingTable then Some(EncodingTable[c]) else None
  }

  /** Table 5 group by group: digits are worth their own value, letters 10 to
      35 in alphabetical order, then space, $, %, *, +, -, ., / and : take 36
      to 44. */
  function StandardValue(c: char): Option<nat> {
    if '0' <= c <= '9' then Some(c as nat - '0' as nat)
    else if 'A' <= c <= 'Z' then Some(c as nat - 'A' as nat + 10)
    else if c == ' ' then Some(36)
    else if c == '$' then Some(37)
    else if c == '%' then Some(38)
    else if c == '*' then Some(39)
    else if c == '+' then Some(40)
    else if c == '-' then Some(41)
    else if c == '.' then Some(42)
    else if c == '/' then Some(43)
    else if c == ':' then Some(44)
    else None
  }

  /** Position i of the string holds the symbol Table 5 gives the value i. */
  lemma CharsetFollowsStandard()
    ensures |Charset| == 45
    ensures forall i :: 0 <= i < 45 ==> StandardValue(Charset[i]) == Some(i)
  {
    CharsetGroups();
    forall i | 0 <= i < 45 ensures StandardValue(Charset[i]) == Some(i) {
      if i >= 36 {
        assert Charset[i] == " $%*+-./:"[i - 36];
      }
    }
  }

  /** The character codes of the digit and letter groups. */
  lemma CharsetGroups()
    ensures |Charset| == 45
    ensures forall i :: 0 <= i < 10 ==> Charset[i] as int == '0' as int + i
    ensures forall i :: 10 <= i < 36 ==> Charset[i] as int == 'A' as int + i - 10
  {
  }

  /** Table 5 never gives two symbols the same value. */
  lemma StandardValueInjective(c: char, d: char)
    requires StandardValue(c).Some? && StandardValue(c) == StandardValue(d)
    ensures c == d
  {
  }

  /** The table agrees with Table 5 on every character, including the ones
      both leave out. */
  lemma LookupMatchesStandard(c: char)
    ensures Lookup(c) == StandardValue(c)
  {
    CharsetFollowsStandard();
    match StandardValue(c)
    case Some(i) =>
      assert i < 45;
      StandardValueInjective(c, Charset[i]);
    case None =>
  }

  /** The table's keys are exactly the characters the alphanumeric pattern
      accepts. */
  lemma DomainIsAlphanumericClass(c: char)
    ensures Lookup(c).Some? <==> IsAlphanumericChar(c)
  {
  }

  /** The table maps its 45 keys one-to-one onto 0..44. */
  lemma TableIsBijection()
    ensures |Charset| == 45
    ensures forall i :: 0 <= i < 45 ==> Lookup(Charset[i]) == Some(i)
    ensures forall c :: Lookup(c).Some? ==> Lookup(c).value < 45
    ensures forall c, d :: Lookup(c).Some? && Lookup(c) == Lookup(d) ==> c == d
  {
    CharsetFollowsStandard();
    forall i | 0 <= i < 45 ensures Lookup(Charset[i]) == Some(i) {
      LookupMatchesStandard(Charset[i]);
    }
  }

  /** Each digit is worth its own value. */
  lemma DigitValue(c: char)
    requires '0' <= c <= '9'
    ensures Lookup(c) == Some(c as nat - '0' as nat)
  {
    LookupMatchesStandard(c);
  }

  /** The letters run from 10 to 35 and the symbol set ends with $ at 37 and
      : at 44. */
  lemma PinnedValues()
    ensures Lookup('A') == Some(10) && Lookup('Z') == Some(35)
    ensures Lookup('$') == Some(37) && Lookup(':') == Some(44)
  {
    assert Lookup('A') == Some(10) by { LookupMatchesStandard('A'); }
    assert Lookup('Z') == Some(35) by { LookupMatchesStandard('Z'); }
    assert Lookup('$') == Some(37) by { LookupMatchesStandard('$'); }
    assert Lookup(':') == Some(44) by { LookupMatchesStandard(':'); }
  }

  /** Lower-case letters have no entry. */
  lemma LowerCaseHasNoValue(c: char)
    requires 'a' <= c <= 'z'
    ensures Lookup(c) == None
  {
    DomainIsAlphanumericClass(c);
    LowerCaseIsNotAlphanumeric(c);
  }
}
