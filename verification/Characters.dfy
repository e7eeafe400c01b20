/** The character classes that the models rely on, as tables over ASCII. */
module Characters {
  import opened Wrappers
  import Dsml
  import ProtoLex
  import ProtoString
  import Sanitizer
  import Text

  const LOWER := "abcdefghijklmnopqrstuvwxyz"
  const UPPER := "ABCDEFGHIJKLMNOPQRSTUVWXYZ"
  const DIGITS := "0123456789"
  const BLANKS := "\t\n\U{000B}\U{000C}\r\U{001C}\U{001D}\U{001E}\U{001F} "

  lemma LowersAre(c: char)
    ensures c in LOWER <==> 'a' <= c <= 'z'
  {
    if 'a' <= c <= 'z' { assert LOWER[c as int - 'a' as int] == c; }
  }

  lemma UppersAre(c: char)
    ensures c in UPPER <==> 'A' <= c <= 'Z'
  {
    if 'A' <= c <= 'Z' { assert UPPER[c as int - 'A' as int] == c; }
  }

  lemma DigitsAre(c: char)
    ensures c in DIGITS <==> '0' <= c <= '9'
  {
    if '0' <= c <= '9' { assert DIGITS[c as int - '0' as int] == c; }
  }

  lemma BlanksAre(c: char)
    ensures Text.IsSpace(c) <==> c in BLANKS
  {
    if Text.IsSpace(c) {
      var n := c as int;
      assert BLANKS[if n <= 13 then n - 9 else n - 23] == c;
    }
  }

  /** The classes of the patterns, written out. */
  lemma ClassesAre(c: char)
    ensures Text.IsSpace(c) <==> c in BLANKS
    ensures Sanitizer.IsWord(c) <==> c in LOWER || c in UPPER || c in DIGITS || c == '_'
    ensures ProtoLex.Start(c) <==> c in LOWER || c in UPPER || c == '_'
    ensures ProtoString.Digit(c) <==> c in DIGITS
    ensures ProtoString.Octal(c) <==> c in DIGITS[..8]
    ensures ProtoString.Hex(c) <==> c in DIGITS || c in LOWER[..6] || c in UPPER[..6]
    ensures Dsml.NameChar(c) <==> c !in "\"<>"
    ensures forall cls :: ProtoLex.In(c, cls) <==>
      match cls
      case Spaces => c in BLANKS
      case Digits => c in DIGITS
      case HexDigits => c in DIGITS || c in LOWER[..6] || c in UPPER[..6]
      case NameChars => c in LOWER || c in UPPER || c in DIGITS || c == '_' || c == '.'
      case LineChars => c !in "\r\n"
  {
    LowersAre(c);
    UppersAre(c);
    DigitsAre(c);
    BlanksAre(c);
    SlicesAre(c);
    hide Text.IsSpace;
  }

  lemma SlicesAre(c: char)
    ensures c in LOWER[..6] <==> 'a' <= c <= 'f'
    ensures c in UPPER[..6] <==> 'A' <= c <= 'F'
    ensures c in DIGITS[..8] <==> '0' <= c <= '7'
  {
    if 'a' <= c <= 'f' { assert LOWER[..6][c as int - 'a' as int] == c; }
    if 'A' <= c <= 'F' { assert UPPER[..6][c as int - 'A' as int] == c; }
    if '0' <= c <= '7' { assert DIGITS[..8][c as int - '0' as int] == c; }
  }

  lemma LetterAt(k: nat)
    requires k < 26
    ensures UPPER[k] as int == 'A' as int + k && LOWER[k] as int == 'a' as int + k
  {}

  /** Lower case goes letter by letter and leaves everything else. */
  lemma LowerIs(c: char)
    ensures c !in UPPER ==> Text.Lower(c) == c
    ensures forall k | 0 <= k < 26 :: Text.Lower(UPPER[k]) == LOWER[k]
  {
    UppersAre(c);
    forall k | 0 <= k < 26 ensures Text.Lower(UPPER[k]) == LOWER[k] { LowerAt(k); }
  }

  lemma LowerAt(k: nat)
    requires k < 26
    ensures Text.Lower(UPPER[k]) == LOWER[k]
  {
    LetterAt(k);
  }

  /** The value of a hexadecimal digit is its place among them. */
  lemma HexValueIs(c: char)
    requires ProtoString.Hex(c)
    ensures var n := ProtoString.HexValue(c); (DIGITS + LOWER[..6])[n] == c || (DIGITS + UPPER[..6])[n] == c
  {}
}
