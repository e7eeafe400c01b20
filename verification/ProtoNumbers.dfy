/** The numbers of Protocol Buffers text format, told by putting their texts together (gateway/model_config.py). */
module ProtoNumbers {
  import opened Wrappers
  import opened Text
  import opened ProtoString
  import opened ProtoLex

  // ---------------------------------------------------------------- numbers as written

  predicate AllIn(s: string, cls: Class) {
    forall k | 0 <= k < |s| :: In(s[k], cls)
  }

  predicate SomeDigits(s: string) {
    s != "" && AllIn(s, Digits)
  }

  /** Digits with a point and more digits behind it, or not; or a point and digits. */
  datatype Mantissa = Whole(before: string) | Broken(before: string, behind: string) | Pointed(behind: string)

  predicate LegalMantissa(m: Mantissa) {
    match m
    case Whole(before) => SomeDigits(before)
    case Broken(before, behind) => SomeDigits(before) && AllIn(behind, Digits)
    case Pointed(behind) => SomeDigits(behind)
  }

  function SpellMantissa(m: Mantissa): string {
    match m
    case Whole(before) => before
    case Broken(before, behind) => before + ("." + behind)
    case Pointed(behind) => "." + behind
  }

  predicate Sign(s: string) {
    s == "" || s == "+" || s == "-"
  }

  datatype Power = NoPower | Power(mark: char, sign: string, digits: string)

  predicate LegalPower(p: Power) {
    p.Power? ==> (p.mark == 'e' || p.mark == 'E') && Sign(p.sign) && SomeDigits(p.digits)
  }

  function SpellPower(p: Power): string {
    match p
    case NoPower => ""
    case Power(mark, sign, digits) => [mark] + (sign + digits)
  }

  /** A word is `inf`, `infinity` or `nan` in any case. */
  datatype Amount = Hexadecimal(x: char, digits: string) | Fixed(m: Mantissa, p: Power, suffix: string) | Named(word: string, suffix: string)

  predicate Suffix(s: string) {
    s == "" || s == "f" || s == "F"
  }

  predicate IsWord(s: string, word: string) {
    |s| == |word| && AtNoCase(s, 0, word)
  }

  predicate LegalAmount(a: Amount) {
    match a
    case Hexadecimal(x, digits) => (x == 'x' || x == 'X') && digits != "" && AllIn(digits, HexDigits)
    case Fixed(m, p, suffix) => LegalMantissa(m) && LegalPower(p) && Suffix(suffix)
    case Named(word, suffix) => (IsWord(word, "inf") || IsWord(word, "infinity") || IsWord(word, "nan")) && Suffix(suffix)
  }

  function SpellAmount(a: Amount): string {
    match a
    case Hexadecimal(x, digits) => ['0', x] + digits
    case Fixed(m, p, suffix) => SpellMantissa(m) + (SpellPower(p) + suffix)
    case Named(word, suffix) => word + suffix
  }

  // ---------------------------------------------------------------- reading what was written

  lemma {:induction false} RunIs(s: string, cls: Class, n: nat)
    requires n <= |s| && (forall k | 0 <= k < n :: In(s[k], cls)) && (n < |s| ==> !In(s[n], cls))
    ensures Run(s, cls) == n
  {}

  /** A stretch of a class in front of something else. */
  lemma RunStretch(a: string, rest: string, cls: Class)
    requires AllIn(a, cls) && (rest != "" ==> !In(rest[0], cls))
    ensures Run(a + rest, cls) == |a|
  {
    var s := a + rest;
    assert forall k | 0 <= k < |a| :: s[k] == a[k];
    if rest != "" { assert s[|a|] == rest[0]; }
    RunIs(s, cls, |a|);
  }

  /** What may follow a mantissa or a power: nothing that belongs to it. */
  predicate Stops(rest: string) {
    rest != "" ==> !Digit(rest[0]) && rest[0] != '.'
  }

  lemma Behind(a: string, rest: string)
    ensures (a + rest)[|a|..] == rest && (a + rest)[..|a|] == a
  {}

  /** Where the mantissa of a decimal number ends; zero if there is none. */
  function MantissaEnd(s: string): (p: nat)
    ensures p <= |s|
  {
    var n := Run(s, Digits);
    if n > 0 then Fraction(s, n)
    else if |s| >= 2 && s[0] == '.' && Digit(s[1]) then 1 + Run(s[1..], Digits)
    else 0
  }

  lemma MantissaReads(m: Mantissa, rest: string)
    requires LegalMantissa(m) && Stops(rest)
    ensures MantissaEnd(SpellMantissa(m) + rest) == |SpellMantissa(m)| > 0
  {
    match m
    case Whole(before) =>
      RunStretch(before, rest, Digits);
      if rest != "" { assert (before + rest)[|before|] == rest[0]; }
    case Broken(before, behind) =>
      BrokenReads(before, behind, rest);
    case Pointed(behind) =>
      PointedReads(behind, rest);
  }

  lemma BrokenReads(before: string, behind: string, rest: string)
    requires SomeDigits(before) && AllIn(behind, Digits) && Stops(rest)
    ensures MantissaEnd(before + ("." + behind) + rest) == |before| + 1 + |behind|
  {
    var s := before + ("." + behind) + rest;
    var tail := "." + (behind + rest);
    assert s == before + tail;
    RunStretch(before, tail, Digits);
    RunStretch(behind, rest, Digits);
    assert s[|before|] == '.' && s[|before| + 1..] == behind + rest;
    hide Run;
  }

  lemma PointedReads(behind: string, rest: string)
    requires SomeDigits(behind) && Stops(rest)
    ensures MantissaEnd("." + behind + rest) == 1 + |behind|
  {
    var s := "." + behind + rest;
    assert s == "." + (behind + rest) && s[0] == '.' && s[1] == behind[0] && s[1..] == behind + rest;
    RunIs(s, Digits, 0);
    RunStretch(behind, rest, Digits);
    hide Run;
  }

  /** The texts of a power: its mark, its sign and its digits. */
  lemma PowerParts(mark: char, sign: string, digits: string, suffix: string)
    requires Sign(sign) && SomeDigits(digits)
    ensures var s := [mark] + (sign + digits) + suffix;
      s[0] == mark && ExponentDigits(s) == 1 + |sign| && s[1 + |sign|..] == digits + suffix
  {
    var s := [mark] + (sign + digits) + suffix;
    assert s == [mark] + (sign + (digits + suffix));
    if sign == "" {
      assert s[1] == digits[0] && Digit(digits[0]);
    } else {
      assert s[1] == sign[0];
    }
    Behind([mark] + sign, digits + suffix);
    assert s == ([mark] + sign) + (digits + suffix);
  }

  lemma PowerReads(p: Power, suffix: string)
    requires LegalPower(p) && Suffix(suffix)
    ensures Exponent(SpellPower(p) + suffix) == |SpellPower(p)|
  {
    match p
    case NoPower =>
      assert "" + suffix == suffix;
    case Power(mark, sign, digits) =>
      PowerParts(mark, sign, digits, suffix);
      SuffixStops(suffix);
      RunStretch(digits, suffix, Digits);
      hide Run, AllIn, ExponentDigits, Sign, Suffix;
  }

  lemma SuffixStops(suffix: string)
    requires Suffix(suffix)
    ensures suffix != "" ==> !In(suffix[0], Digits)
  {}

  lemma DecimalByMantissa(s: string)
    requires MantissaEnd(s) > 0
    ensures Decimal(s) == MantissaEnd(s) + Exponent(s[MantissaEnd(s)..])
  {
    hide Run, Fraction, Exponent, SpellsNoCase;
  }

  lemma PowerStops(p: Power, suffix: string)
    requires LegalPower(p) && Suffix(suffix)
    ensures Stops(SpellPower(p) + suffix)
  {}

  lemma FixedReads(m: Mantissa, p: Power, suffix: string)
    requires LegalMantissa(m) && LegalPower(p) && Suffix(suffix)
    ensures var s := SpellMantissa(m) + (SpellPower(p) + suffix); Decimal(s) == |s| - |suffix| > 0
  {
    hide *;
    var rest := SpellPower(p) + suffix;
    PowerStops(p, suffix);
    MantissaReads(m, rest);
    Behind(SpellMantissa(m), rest);
    PowerReads(p, suffix);
    DecimalByMantissa(SpellMantissa(m) + rest);
  }

  lemma WordStarts(s: string, word: string)
    requires |s| >= |word| > 0 && AtNoCase(s, 0, word)
    ensures Lower(s[0]) == word[0]
  {
    assert Lower(s[0 + 0]) == word[0];
  }

  lemma WordLonger(word: string, suffix: string, w: string)
    requires IsWord(word, w)
    ensures AtNoCase(word + suffix, 0, w)
  {
    assert forall k | 0 <= k < |word| :: (word + suffix)[k] == word[k];
    assert forall k | 0 <= k < |w| :: Lower(word[0 + k]) == w[k];
  }

  lemma LetterIsNoDigit(s: string)
    requires s != "" && (Lower(s[0]) == 'i' || Lower(s[0]) == 'n')
    ensures Run(s, Digits) == 0 && s[0] != '.' && s[0] != '0' && s[0] != '+' && s[0] != '-'
  {}

  lemma WordReads(word: string, suffix: string)
    requires (IsWord(word, "inf") || IsWord(word, "infinity") || IsWord(word, "nan")) && Suffix(suffix)
    ensures Decimal(word + suffix) == |word| > 0 && Lower((word + suffix)[0]) in "in"
  {
    var s := word + suffix;
    var w := if IsWord(word, "infinity") then "infinity" else if IsWord(word, "inf") then "inf" else "nan";
    WordLonger(word, suffix, w);
    WordStarts(s, w);
    LetterIsNoDigit(s);
    if SpellsNoCase(s, "infinity") { WordStarts(s, "infinity"); }
    if SpellsNoCase(s, "inf") { WordStarts(s, "inf"); }
    hide Run, AtNoCase, Lower;
  }

  lemma HexReads(x: char, digits: string)
    requires (x == 'x' || x == 'X') && digits != "" && AllIn(digits, HexDigits)
    ensures var s := ['0', x] + digits; Unsigned(s) == |s|
  {
    var s := ['0', x] + digits;
    assert s[2..] == digits && s[2] == digits[0] && In(digits[0], HexDigits);
    assert digits + "" == digits;
    RunStretch(digits, "", HexDigits);
    hide Run, Decimal;
  }

  /** What a decimal number starts with tells it from a hexadecimal one. */
  predicate NoHex(s: string) {
    |s| >= 2 ==> s[0] != '0' || (s[1] != 'x' && s[1] != 'X')
  }

  lemma FixedIsNoHex(m: Mantissa, p: Power, suffix: string)
    requires LegalMantissa(m) && LegalPower(p) && Suffix(suffix)
    ensures var s := SpellMantissa(m) + (SpellPower(p) + suffix);
      s != "" && NoHex(s) && s[0] != '+' && s[0] != '-' && (suffix != "" ==> s[|s| - 1] == suffix[0])
  {
    var head, tail := SpellMantissa(m), SpellPower(p) + suffix;
    var s := head + tail;
    HeadIsPlain(m);
    TailIsPlain(p, suffix);
    assert s[0] == head[0];
    if |s| >= 2 { assert s[1] == if |head| >= 2 then head[1] else tail[0]; }
    hide SpellMantissa, SpellPower, LegalMantissa, LegalPower;
  }

  lemma HeadIsPlain(m: Mantissa)
    requires LegalMantissa(m)
    ensures var h := SpellMantissa(m); h != "" && (h[0] == '.' || Digit(h[0])) && (|h| >= 2 ==> h[1] == '.' || Digit(h[1]))
  {}

  lemma TailIsPlain(p: Power, suffix: string)
    requires LegalPower(p) && Suffix(suffix)
    ensures var t := SpellPower(p) + suffix; t != "" ==> t[0] in "eEfF"
    ensures suffix != "" ==> (SpellPower(p) + suffix)[|SpellPower(p) + suffix| - 1] == suffix[0]
  {}

  /** A decimal number is read with its suffix. */
  lemma SuffixReads(s: string, suffix: string)
    requires s != "" && NoHex(s) && Suffix(suffix) && Decimal(s) == |s| - |suffix| > 0 && (suffix != "" ==> s[|s| - 1] == suffix[0])
    ensures Unsigned(s) == |s|
  {
    hide Decimal, Run;
  }

  lemma AmountReads(a: Amount)
    requires LegalAmount(a)
    ensures var s := SpellAmount(a); s != "" && Unsigned(s) == |s| && s[0] != '+' && s[0] != '-'
  {
    match a
    case Hexadecimal(x, digits) => HexReads(x, digits);
    case Fixed(m, p, suffix) =>
      FixedReads(m, p, suffix);
      FixedIsNoHex(m, p, suffix);
      hide Unsigned, Decimal, SpellMantissa, SpellPower;
      SuffixReads(SpellAmount(a), suffix);
    case Named(word, suffix) =>
      WordReads(word, suffix);
      LetterIsNoDigit(word + suffix);
      hide Unsigned, Decimal, IsWord;
      SuffixReads(word + suffix, suffix);
  }

  lemma NumberReads(sign: string, a: Amount)
    requires Sign(sign) && LegalAmount(a)
    ensures var s := sign + SpellAmount(a); s != "" && NumberLength(s) == |s|
  {
    AmountReads(a);
    Behind(sign, SpellAmount(a));
    assert sign == "" ==> sign + SpellAmount(a) == SpellAmount(a);
    hide Unsigned, SpellAmount;
  }

  // ---------------------------------------------------------------- finding what was written

  lemma RunFound(s: string, n: nat, cls: Class)
    requires n <= |s| && n + Run(s[n..], cls) <= |s|
    ensures AllIn(s[n..n + Run(s[n..], cls)], cls)
  {
    var r := Run(s[n..], cls);
    assert s[n..n + r] == s[n..][..r];
  }

  lemma FindMantissa(s: string) returns (m: Mantissa)
    requires MantissaEnd(s) > 0
    ensures LegalMantissa(m) && SpellMantissa(m) == s[..MantissaEnd(s)]
  {
    var n := Run(s, Digits);
    assert s[0..] == s;
    RunFound(s, 0, Digits);
    if n > 0 {
      var e := Fraction(s, n);
      if e == n {
        m := Whole(s[..n]);
      } else {
        RunFound(s, n + 1, Digits);
        m := Broken(s[..n], s[n + 1..e]);
        assert s[..e] == s[..n] + ("." + s[n + 1..e]);
      }
    } else {
      RunFound(s, 1, Digits);
      var e := MantissaEnd(s);
      m := Pointed(s[1..e]);
      assert s[..e] == "." + s[1..e];
    }
  }

  lemma FindPower(s: string) returns (p: Power)
    ensures LegalPower(p) && SpellPower(p) == s[..Exponent(s)]
  {
    var e := Exponent(s);
    p := NoPower;
    if e > 0 {
      var k := ExponentDigits(s);
      RunFound(s, k, Digits);
      p := Power(s[0], s[1..k], s[k..e]);
      assert s[..e] == [s[0]] + (s[1..k] + s[k..e]);
    }
  }

  lemma FindSuffix(s: string, d: nat)
    requires d <= |s| && (d == |s| || (d + 1 == |s| && (s[d] == 'f' || s[d] == 'F')))
    ensures Suffix(s[d..]) && s == s[..d] + s[d..]
  {}

  lemma FindDecimal(s: string, d: nat) returns (a: Amount)
    requires Decimal(s) == d > 0 && (d == |s| || (d + 1 == |s| && (s[d] == 'f' || s[d] == 'F')))
    ensures LegalAmount(a) && SpellAmount(a) == s
  {
    FindSuffix(s, d);
    if MantissaEnd(s) > 0 {
      DecimalByMantissa(s);
      hide *;
      var e := MantissaEnd(s);
      var m := FindMantissa(s);
      var p := FindPower(s[e..]);
      a := Fixed(m, p, s[d..]);
      FixedIs(s, e, d, m, p);
    } else {
      a := Named(s[..d], s[d..]);
      DecimalIsWord(s);
    }
  }

  lemma DecimalIsWord(s: string)
    requires MantissaEnd(s) == 0 && Decimal(s) > 0
    ensures var w := s[..Decimal(s)]; IsWord(w, "inf") || IsWord(w, "infinity") || IsWord(w, "nan")
  {}

  lemma FixedIs(s: string, e: nat, d: nat, m: Mantissa, p: Power)
    requires e <= d <= |s| && SpellMantissa(m) == s[..e] && SpellPower(p) == s[e..][..d - e] && Suffix(s[d..])
    requires LegalMantissa(m) && LegalPower(p)
    ensures LegalAmount(Fixed(m, p, s[d..])) && SpellAmount(Fixed(m, p, s[d..])) == s
  {
    hide LegalMantissa, LegalPower, SpellMantissa, SpellPower, Suffix;
    assert s == s[..e] + (s[e..][..d - e] + s[d..]);
  }

  lemma FindAmount(s: string) returns (a: Amount)
    requires s != "" && Unsigned(s) == |s|
    ensures LegalAmount(a) && SpellAmount(a) == s
  {
    if |s| >= 3 && s[0] == '0' && (s[1] == 'x' || s[1] == 'X') && Hex(s[2]) {
      RunFound(s, 2, HexDigits);
      a := Hexadecimal(s[1], s[2..]);
      assert s == ['0', s[1]] + s[2..];
    } else {
      hide Decimal;
      a := FindDecimal(s, Decimal(s));
    }
  }

  /**
   A text is one number exactly if it is written as: a sign or none; then `0x` and hexadecimal digits; or
   digits with or without a point, or a point and digits, with or without a power of ten, or one of the
   words; these two with or without an `f` at the end.
   */
  lemma NumberExactly(s: string)
    ensures (s != "" && NumberLength(s) == |s|) <==>
      exists sign: string, a: Amount :: Sign(sign) && LegalAmount(a) && s == sign + SpellAmount(a)
  {
    if s != "" && NumberLength(s) == |s| {
      var sign := if s[0] == '+' || s[0] == '-' then s[..1] else "";
      assert s == sign + s[|sign|..] && Sign(sign);
      assert sign == "" ==> s[|sign|..] == s;
      var a := FindAmount(s[|sign|..]);
    }
    if exists sign: string, a: Amount :: Sign(sign) && LegalAmount(a) && s == sign + SpellAmount(a) {
      var sign: string, a: Amount :| Sign(sign) && LegalAmount(a) && s == sign + SpellAmount(a);
      NumberReads(sign, a);
    }
  }
}
