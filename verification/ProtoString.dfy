/**
 String literals of the Protocol Buffers text format, as gateway/model_config.py decodes them.
 Text is ASCII; a byte is a number below 256.
 */
module ProtoString {
  import opened Wrappers

  type Bytes = seq<nat>

  predicate Octal(c: char) { '0' <= c <= '7' }

  predicate Digit(c: char) { '0' <= c <= '9' }

  predicate Hex(c: char) { Digit(c) || 'a' <= c <= 'f' || 'A' <= c <= 'F' }

  function HexValue(c: char): (r: nat)
    requires Hex(c)
    ensures r < 16
  {
    if Digit(c) then c as int - '0' as int
    else if 'a' <= c <= 'f' then c as int - 'a' as int + 10
    else c as int - 'A' as int + 10
  }

  predicate AllHex(s: string) { forall k | 0 <= k < |s| :: Hex(s[k]) }

  predicate AllOctal(s: string) { forall k | 0 <= k < |s| :: Octal(s[k]) }

  /** `int(s, base)`. */
  function Number(s: string, base: nat): nat
    requires AllHex(s)
  {
    if s == "" then 0 else Number(s[..|s| - 1], base) * base + HexValue(s[|s| - 1])
  }

  /** How many of the first `most` characters of `s` satisfy a digit test. */
  function OctalRun(s: string, most: nat): (r: nat)
    ensures r <= most && r <= |s| && AllOctal(s[..r]) && (r < most && r < |s| ==> !Octal(s[r]))
  {
    if most == 0 || s == "" || !Octal(s[0]) then 0 else 1 + OctalRun(s[1..], most - 1)
  }

  function HexRun(s: string, most: nat): (r: nat)
    ensures r <= most && r <= |s| && AllHex(s[..r]) && (r < most && r < |s| ==> !Hex(s[r]))
  {
    if most == 0 || s == "" || !Hex(s[0]) then 0 else 1 + HexRun(s[1..], most - 1)
  }

  /** The one-letter escapes. */
  function Named(c: char): Option<nat> {
    if c == 'a' then Some(7) else if c == 'b' then Some(8) else if c == 'f' then Some(12)
    else if c == 'n' then Some(10) else if c == 'r' then Some(13) else if c == 't' then Some(9)
    else if c == 'v' then Some(11) else if c == '\'' then Some(39) else if c == '"' then Some(34)
    else if c == '\\' then Some(92) else if c == '?' then Some(63) else None
  }

  /** The table of the escapes and the control characters, quotes and marks that they stand for. */
  const ESCAPES: seq<(char, char)> := [
    ('a', '\U{0007}'), ('b', '\U{0008}'), ('f', '\U{000C}'), ('n', '\n'), ('r', '\r'), ('t', '\t'),
    ('v', '\U{000B}'), ('\'', '\''), ('"', '"'), ('\\', '\\'), ('?', '?')
  ]

  lemma NamedExactly(c: char, n: nat)
    ensures Named(c) == Some(n) <==> exists e | e in ESCAPES :: e.0 == c && e.1 as nat == n
  {
    if Named(c) == Some(n) {
      var k := if c == 'a' then 0 else if c == 'b' then 1 else if c == 'f' then 2 else if c == 'n' then 3
        else if c == 'r' then 4 else if c == 't' then 5 else if c == 'v' then 6 else if c == '\'' then 7
        else if c == '"' then 8 else if c == '\\' then 9 else 10;
      assert ESCAPES[k] in ESCAPES && ESCAPES[k].0 == c && ESCAPES[k].1 as nat == n;
    }
  }

  /** The UTF-8 form of a code point; surrogates and numbers beyond the range have none. */
  function Utf8(n: nat): Option<Bytes> {
    if n < 0x80 then Some([n])
    else if n < 0x800 then Some([0xC0 + n / 0x40, 0x80 + n % 0x40])
    else if 0xD800 <= n < 0xE000 then None
    else if n < 0x10000 then Some([0xE0 + n / 0x1000, 0x80 + n / 0x40 % 0x40, 0x80 + n % 0x40])
    else if n < 0x110000 then
      Some([0xF0 + n / 0x40000, 0x80 + n / 0x1000 % 0x40, 0x80 + n / 0x40 % 0x40, 0x80 + n % 0x40])
    else None
  }

  /** A byte that continues a code point, and the six bits it carries. */
  predicate Continues(b: nat) { 0x80 <= b < 0xC0 }

  /** `bytes` carry the code point `n`, in the shortest form (section 3 of RFC 3629). */
  predicate Carries(bytes: Bytes, n: nat) {
    match |bytes|
    case 1 => bytes[0] < 0x80 && n == bytes[0]
    case 2 =>
      && 0xC0 <= bytes[0] < 0xE0 && Continues(bytes[1])
      && n == (bytes[0] - 0xC0) * 0x40 + (bytes[1] - 0x80) && 0x80 <= n
    case 3 =>
      && 0xE0 <= bytes[0] < 0xF0 && Continues(bytes[1]) && Continues(bytes[2])
      && n == (bytes[0] - 0xE0) * 0x1000 + (bytes[1] - 0x80) * 0x40 + (bytes[2] - 0x80)
      && 0x800 <= n && !(0xD800 <= n < 0xE000)
    case 4 =>
      && 0xF0 <= bytes[0] < 0xF8 && Continues(bytes[1]) && Continues(bytes[2]) && Continues(bytes[3])
      && n == (bytes[0] - 0xF0) * 0x40000 + (bytes[1] - 0x80) * 0x1000 + (bytes[2] - 0x80) * 0x40 + (bytes[3] - 0x80)
      && 0x10000 <= n < 0x110000
    case _ => false
  }

  lemma TwoBytes(a: nat, b: nat)
    requires b < 0x40
    ensures (a * 0x40 + b) / 0x40 == a && (a * 0x40 + b) % 0x40 == b
  {}

  lemma ThreeBytes(a: nat, b: nat, c: nat)
    requires b < 0x40 && c < 0x40
    ensures var n := a * 0x1000 + b * 0x40 + c; n / 0x1000 == a && n / 0x40 % 0x40 == b && n % 0x40 == c
  {
    var n := a * 0x1000 + b * 0x40 + c;
    assert n == (a * 0x40 + b) * 0x40 + c;
    TwoBytes(a * 0x40 + b, c);
    TwoBytes(a, b);
  }

  lemma FourBytes(a: nat, b: nat, c: nat, d: nat)
    requires b < 0x40 && c < 0x40 && d < 0x40
    ensures var n := a * 0x40000 + b * 0x1000 + c * 0x40 + d;
      n / 0x40000 == a && n / 0x1000 % 0x40 == b && n / 0x40 % 0x40 == c && n % 0x40 == d
  {
    var n := a * 0x40000 + b * 0x1000 + c * 0x40 + d;
    assert n == (a * 0x40 + b) * 0x1000 + c * 0x40 + d;
    ThreeBytes(a * 0x40 + b, c, d);
    TwoBytes(a, b);
  }

  lemma CarriesOne(n: nat)
    requires n < 0x80
    ensures Utf8(n).Some? && Carries(Utf8(n).value, n)
  {}

  lemma CarriesTwo(n: nat)
    requires 0x80 <= n < 0x800
    ensures Utf8(n).Some? && Carries(Utf8(n).value, n)
  {
    assert n == n / 0x40 * 0x40 + n % 0x40;
  }

  lemma CarriesThree(n: nat)
    requires 0x800 <= n < 0x10000 && !(0xD800 <= n < 0xE000)
    ensures Utf8(n).Some? && Carries(Utf8(n).value, n)
  {
    var a, c := n / 0x40, n % 0x40;
    assert n == a * 0x40 + c && a == a / 0x40 * 0x40 + a % 0x40;
    ThreeBytes(a / 0x40, a % 0x40, c);
    assert Utf8(n) == Some([0xE0 + a / 0x40, 0x80 + a % 0x40, 0x80 + c]);
  }

  lemma CarriesFour(n: nat)
    requires 0x10000 <= n < 0x110000
    ensures Utf8(n).Some? && Carries(Utf8(n).value, n)
  {
    var a, d := n / 0x40, n % 0x40;
    var b, c := a / 0x40, a % 0x40;
    assert n == a * 0x40 + d && a == b * 0x40 + c && b == b / 0x40 * 0x40 + b % 0x40;
    FourBytes(b / 0x40, b % 0x40, c, d);
    assert Utf8(n) == Some([0xF0 + b / 0x40, 0x80 + b % 0x40, 0x80 + c, 0x80 + d]);
  }

  lemma Utf8Carries(n: nat)
    ensures Utf8(n).Some? <==> n < 0xD800 || 0xE000 <= n < 0x110000
    ensures Utf8(n).Some? ==> Carries(Utf8(n).value, n)
  {
    hide Carries;
    if n < 0x80 { CarriesOne(n); }
    else if n < 0x800 { CarriesTwo(n); }
    else if n < 0x10000 { if !(0xD800 <= n < 0xE000) { CarriesThree(n); } }
    else if n < 0x110000 { CarriesFour(n); }
  }

  lemma CarriedThree(bytes: Bytes, n: nat)
    requires |bytes| == 3 && Carries(bytes, n)
    ensures Utf8(n) == Some(bytes)
  {
    var a, b, c := bytes[0] - 0xE0, bytes[1] - 0x80, bytes[2] - 0x80;
    ThreeBytes(a, b, c);
    assert bytes == [0xE0 + a, 0x80 + b, 0x80 + c];
  }

  lemma CarriedFour(bytes: Bytes, n: nat)
    requires |bytes| == 4 && Carries(bytes, n)
    ensures Utf8(n) == Some(bytes)
  {
    var a, b, c, d := bytes[0] - 0xF0, bytes[1] - 0x80, bytes[2] - 0x80, bytes[3] - 0x80;
    FourBytes(a, b, c, d);
    assert bytes == [0xF0 + a, 0x80 + b, 0x80 + c, 0x80 + d];
  }

  lemma CarriedIsUtf8(bytes: Bytes, n: nat)
    requires Carries(bytes, n)
    ensures Utf8(n) == Some(bytes)
  {
    if |bytes| == 1 {
      assert bytes == [bytes[0]];
    } else if |bytes| == 2 {
      TwoBytes(bytes[0] - 0xC0, bytes[1] - 0x80);
      assert bytes == [bytes[0], bytes[1]];
    } else if |bytes| == 3 {
      CarriedThree(bytes, n);
    } else {
      CarriedFour(bytes, n);
    }
  }

  /** The bytes of a code point are exactly those that carry it; surrogates and numbers beyond the range have none. */
  lemma Utf8Exactly(n: nat, bytes: Bytes)
    ensures Utf8(n) == Some(bytes) <==> Carries(bytes, n)
  {
    Utf8Carries(n);
    if Carries(bytes, n) { CarriedIsUtf8(bytes, n); }
    hide Utf8, Carries;
  }

  /** What follows a backslash: its bytes, and how many characters it takes. */
  function Escape(s: string): (r: Option<(Bytes, nat)>)
    ensures r.Some? ==> 0 < r.value.1 <= |s|
  {
    if s == "" then None
    else if Octal(s[0]) then
      var k := OctalRun(s, 3);
      OctalIsHex(s[..k]);
      var n := Number(s[..k], 8);
      if n < 256 then Some(([n], k)) else None
    else if s[0] == 'x' then
      var k := HexRun(s[1..], 2);
      if k == 0 then None else Some(([Number(s[1..][..k], 16)], k + 1))
    else if s[0] == 'u' || s[0] == 'U' then
      var k := if s[0] == 'u' then 4 else 8;
      if HexRun(s[1..], k) < k then None
      else match Utf8(Number(s[1..][..k], 16))
           case None => None
           case Some(b) => Some((b, k + 1))
    else match Named(s[0])
         case None => None
         case Some(n) => Some(([n], 1))
  }

  lemma OctalIsHex(s: string)
    requires AllOctal(s)
    ensures AllHex(s)
  {}

  function Prefixed(bytes: Bytes, rest: Option<Bytes>): Option<Bytes> {
    if rest.None? then None else Some(bytes + rest.value)
  }

  lemma PrefixedTwice(a: Bytes, b: Bytes, rest: Option<Bytes>)
    ensures Prefixed(a, Prefixed(b, rest)) == Prefixed(a + b, rest) && Prefixed([], rest) == rest
  {
    if rest.Some? { assert a + (b + rest.value) == a + b + rest.value && [] + rest.value == rest.value; }
  }

  /** `_string_bytes` on what stands between the quotes. */
  function Decode(s: string): Option<Bytes>
    decreases |s|
  {
    if s == "" then Some([])
    else if s[0] != '\\' then Prefixed([s[0] as nat], Decode(s[1..]))
    else
      var e := Escape(s[1..]);
      if e.None? then None else Prefixed(e.value.0, Decode(s[1 + e.value.1..]))
  }

  /** The loop of `_string_bytes`, which advances over the text and appends to a byte array. */
  method StringBytes(text: string) returns (result: Option<Bytes>)
    ensures result == Decode(text)
  {
    hide Escape, Prefixed;
    var position, bytes := 0, [];
    assert text[0..] == text;
    PrefixedTwice([], [], Decode(text));
    while position < |text|
      invariant position <= |text|
      invariant Decode(text) == Prefixed(bytes, Decode(text[position..]))
      decreases |text| - position
    {
      var c := text[position];
      DecodeStep(text, position, bytes);
      position := position + 1;
      if c != '\\' {
        bytes := bytes + [c as nat];
      } else {
        var escape := Escape(text[position..]);
        if escape.None? { return None; }
        bytes := bytes + escape.value.0;
        position := position + escape.value.1;
      }
    }
    PrefixedAll(bytes);
    return Some(bytes);
  }

  lemma PrefixedAll(bytes: Bytes)
    ensures Prefixed(bytes, Some([])) == Some(bytes)
  {
    assert bytes + [] == bytes;
  }

  lemma DecodeStep(text: string, p: nat, bytes: Bytes)
    requires p < |text|
    ensures Prefixed(bytes, Decode(text[p..])) ==
      if text[p] != '\\' then Prefixed(bytes + [text[p] as nat], Decode(text[p + 1..]))
      else
        var e := Escape(text[p + 1..]);
        if e.None? then None else Prefixed(bytes + e.value.0, Decode(text[p + 1 + e.value.1..]))
  {
    hide Escape;
    var s := text[p..];
    assert s[0] == text[p] && s[1..] == text[p + 1..];
    if text[p] != '\\' {
      PrefixedTwice(bytes, [text[p] as nat], Decode(text[p + 1..]));
    } else if Escape(text[p + 1..]).Some? {
      var escape := Escape(text[p + 1..]).value;
      assert s[1 + escape.1..] == text[p + 1 + escape.1..];
      PrefixedTwice(bytes, escape.0, Decode(text[p + 1 + escape.1..]));
    }
  }

  // ---------------------------------------------------------------- writing literals

  /** One piece of a literal as written. */
  datatype Unit =
    | Raw(c: char)             // itself
    | Letter(c: char)          // backslash and a letter or sign
    | Octals(digits: string)   // backslash and one to three octal digits
    | Hexes(digits: string)    // backslash, `x`, one or two hexadecimal digits
    | Code(digits: string)     // backslash, `u` and four, or `U` and eight hexadecimal digits

  function PrintUnit(u: Unit): string {
    match u
    case Raw(c) => [c]
    case Letter(c) => ['\\', c]
    case Octals(digits) => ['\\'] + digits
    case Hexes(digits) => ['\\', 'x'] + digits
    case Code(digits) => ['\\', CodeLetter(digits)] + digits
  }

  function PrintUnits(us: seq<Unit>): string {
    if us == [] then "" else PrintUnit(us[0]) + PrintUnits(us[1..])
  }

  /** The bytes that a unit stands for; `None` if it stands for none. */
  function Meaning(u: Unit): Option<Bytes> {
    match u
    case Raw(c) => Some([c as nat])
    case Letter(c) => (match Named(c) case None => None case Some(n) => Some([n]))
    case Octals(digits) => if AllHex(digits) && Number(digits, 8) < 256 then Some([Number(digits, 8)]) else None
    case Hexes(digits) => if AllHex(digits) then Some([Number(digits, 16)]) else None
    case Code(digits) => if AllHex(digits) then Utf8(Number(digits, 16)) else None
  }

  function Meanings(us: seq<Unit>): Option<Bytes> {
    if us == [] then Some([])
    else match (Meaning(us[0]), Meanings(us[1..]))
         case (Some(a), more) => Prefixed(a, more)
         case _ => None
  }

  /** A unit that may stand in front of the text `next`: fewer digits than possible must not be followed by another. */
  predicate Fits(u: Unit, next: string) {
    match u
    case Raw(c) => c != '\\'
    case Letter(c) => Named(c).Some?
    case Octals(digits) =>
      AllOctal(digits) && 1 <= |digits| <= 3 && (|digits| < 3 && next != "" ==> !Octal(next[0]))
    case Hexes(digits) =>
      AllHex(digits) && 1 <= |digits| <= 2 && (|digits| < 2 && next != "" ==> !Hex(next[0]))
    case Code(digits) => AllHex(digits) && (|digits| == 4 || |digits| == 8)
  }

  predicate LegalUnits(us: seq<Unit>) {
    us != [] ==> Fits(us[0], PrintUnits(us[1..])) && LegalUnits(us[1..])
  }

  lemma {:induction false} OctalRunIs(digits: string, next: string, most: nat)
    requires AllOctal(digits) && |digits| <= most && (|digits| < most && next != "" ==> !Octal(next[0]))
    ensures OctalRun(digits + next, most) == |digits|
  {
    if digits == "" {
      assert digits + next == next;
    } else {
      assert (digits + next)[1..] == digits[1..] + next;
      OctalRunIs(digits[1..], next, most - 1);
    }
  }

  lemma {:induction false} HexRunIs(digits: string, next: string, most: nat)
    requires AllHex(digits) && |digits| <= most && (|digits| < most && next != "" ==> !Hex(next[0]))
    ensures HexRun(digits + next, most) == |digits|
  {
    if digits == "" {
      assert digits + next == next;
    } else {
      assert (digits + next)[1..] == digits[1..] + next;
      HexRunIs(digits[1..], next, most - 1);
    }
  }

  lemma EscapeOctals(digits: string, next: string)
    requires Fits(Octals(digits), next)
    ensures Escape(digits + next) == match Meaning(Octals(digits)) case None => None case Some(b) => Some((b, |digits|))
  {
    hide Number, Utf8, Named;
    OctalIsHex(digits);
    OctalRunIs(digits, next, 3);
    assert (digits + next)[..|digits|] == digits;
  }

  lemma EscapeX(s: string)
    requires s != "" && s[0] == 'x'
    ensures var k := HexRun(s[1..], 2); Escape(s) == if k == 0 then None else Some(([Number(s[1..][..k], 16)], k + 1))
  {
    hide HexRun, Number;
  }

  lemma EscapeHexes(digits: string, next: string)
    requires Fits(Hexes(digits), next)
    ensures Escape(['x'] + (digits + next)) == Some(([Number(digits, 16)], |digits| + 1))
  {
    HexesFit(digits, next);
    hide *;
    var s := ['x'] + (digits + next);
    assert s[1..] == digits + next;
    EscapeX(s);
    HexRunIs(digits, next, 2);
    assert (digits + next)[..|digits|] == digits;
  }

  lemma HexesFit(digits: string, next: string)
    requires Fits(Hexes(digits), next)
    ensures AllHex(digits) && 1 <= |digits| <= 2 && (|digits| < 2 && next != "" ==> !Hex(next[0]))
  {}

  function CodeLetter(digits: string): char {
    if |digits| == 4 then 'u' else 'U'
  }

  lemma EscapeCode(digits: string, next: string)
    requires Fits(Code(digits), next)
    ensures Escape([CodeLetter(digits)] + (digits + next)) ==
      match Utf8(Number(digits, 16)) case None => None case Some(b) => Some((b, |digits| + 1))
  {
    hide Number, Utf8, Named, HexRun, OctalRun;
    var s := [CodeLetter(digits)] + (digits + next);
    assert s[1..] == digits + next;
    HexRunIs(digits, next, |digits|);
    assert s[1..][..|digits|] == digits;
  }

  /** Decoding an escape whose form behind the backslash is `form`. */
  lemma DecodeEscape(form: string, next: string)
    ensures Decode(['\\'] + form + next) ==
      var e := Escape(form + next);
      if e.None? then None else Prefixed(e.value.0, Decode((form + next)[e.value.1..]))
  {
    hide Escape;
    var s := ['\\'] + form + next;
    assert s[1..] == form + next;
    if Escape(form + next).Some? {
      var k := Escape(form + next).value.1;
      assert s[1 + k..] == (form + next)[k..];
    }
  }

  /** What a unit looks like behind its backslash. */
  function Form(u: Unit): string {
    match u
    case Raw(c) => ""
    case Letter(c) => [c]
    case Octals(digits) => digits
    case Hexes(digits) => ['x'] + digits
    case Code(digits) => [CodeLetter(digits)] + digits
  }

  lemma EscapeLetter(c: char, next: string)
    requires Named(c).Some?
    ensures Escape([c] + next) == Some(([Named(c).value], 1))
  {
    hide Number, Utf8, HexRun, OctalRun;
    assert ([c] + next)[0] == c;
  }

  lemma EscapeForm(u: Unit, next: string)
    requires Fits(u, next) && !u.Raw?
    ensures Escape(Form(u) + next) == match Meaning(u) case None => None case Some(b) => Some((b, |Form(u)|))
  {
    hide Escape, Number, Named, Utf8, Octal, Hex, HexValue, CodeLetter;
    match u
    case Letter(c) => EscapeLetter(c, next);
    case Octals(digits) => EscapeOctals(digits, next);
    case Hexes(digits) =>
      EscapeHexes(digits, next);
      assert ['x'] + digits + next == ['x'] + (digits + next);
    case Code(digits) =>
      EscapeCode(digits, next);
      assert [CodeLetter(digits)] + digits + next == [CodeLetter(digits)] + (digits + next);
  }

  /** Decoding one written unit. */
  lemma DecodeUnit(u: Unit, next: string)
    requires Fits(u, next)
    ensures Decode(PrintUnit(u) + next) == match Meaning(u) case None => None case Some(b) => Prefixed(b, Decode(next))
  {
    hide Escape, Fits;
    if u.Raw? {
      assert (PrintUnit(u) + next)[1..] == next;
      assert u.c != '\\' by { RawFits(u, next); }
    } else {
      assert PrintUnit(u) == ['\\'] + Form(u);
      hide Meaning, Form, Decode, PrintUnit;
      EscapeForm(u, next);
      DecodeEscape(Form(u), next);
      assert (Form(u) + next)[|Form(u)|..] == next;
    }
  }

  lemma RawFits(u: Unit, next: string)
    requires Fits(u, next) && u.Raw?
    ensures u.c != '\\'
  {}

  /** Decoding inverts writing, whatever escapes are chosen. */
  lemma {:induction false} DecodeInverts(us: seq<Unit>)
    requires LegalUnits(us)
    ensures Decode(PrintUnits(us)) == Meanings(us)
  {
    hide Decode, Meaning, Fits;
    if us == [] {
      DecodeEmpty();
    } else {
      DecodeUnit(us[0], PrintUnits(us[1..]));
      DecodeInverts(us[1..]);
    }
  }

  lemma DecodeEmpty()
    ensures Decode("") == Some([])
  {}

  // ---------------------------------------------------------------- every byte string

  function OctalDigit(n: nat): (c: char)
    requires n < 8
    ensures Octal(c) && HexValue(c) == n
  {
    ('0' as int + n) as char
  }

  /** A byte as three octal digits. */
  function Escaped(n: nat): Unit
    requires n < 256
  {
    Octals([OctalDigit(n / 64), OctalDigit(n / 8 % 8), OctalDigit(n % 8)])
  }

  function EscapeAll(b: Bytes): seq<Unit>
    requires forall k | 0 <= k < |b| :: b[k] < 256
  {
    if b == [] then [] else [Escaped(b[0])] + EscapeAll(b[1..])
  }

  lemma NumberOfThree(a: char, b: char, c: char)
    requires Octal(a) && Octal(b) && Octal(c)
    ensures AllHex([a, b, c]) && Number([a, b, c], 8) == (HexValue(a) * 8 + HexValue(b)) * 8 + HexValue(c)
  {
    hide HexValue;
    OctalIsHex([a, b, c]);
    assert [a, b, c][..2] == [a, b] && [a, b][..1] == [a] && [a][..0] == "";
    assert Number([a], 8) == HexValue(a);
    assert Number([a, b], 8) == HexValue(a) * 8 + HexValue(b);
  }

  lemma EscapedMeans(n: nat, next: string)
    requires n < 256
    ensures Fits(Escaped(n), next) && Meaning(Escaped(n)) == Some([n])
  {
    hide Number, HexValue, Octal;
    var d := Escaped(n).digits;
    NumberOfThree(d[0], d[1], d[2]);
    assert d == [d[0], d[1], d[2]];
    assert (n / 64 * 8 + n / 8 % 8) * 8 + n % 8 == n;
  }

  /** Every byte string can be written, and is read back exactly. */
  lemma {:induction false} EveryByteStringReads(b: Bytes)
    requires forall k | 0 <= k < |b| :: b[k] < 256
    ensures LegalUnits(EscapeAll(b)) && Meanings(EscapeAll(b)) == Some(b)
    ensures Decode(PrintUnits(EscapeAll(b))) == Some(b)
  {
    if b == [] {
      assert EscapeAll(b) == [] && LegalUnits([]) && Meanings([]) == Some([]);
    } else {
      assert EscapeAll(b) == [Escaped(b[0])] + EscapeAll(b[1..]);
      hide *;
      EveryByteStringReads(b[1..]);
      EscapedMeans(b[0], PrintUnits(EscapeAll(b[1..])));
      OneMoreUnit(Escaped(b[0]), EscapeAll(b[1..]), b[0], b[1..]);
      assert [b[0]] + b[1..] == b;
    }
    hide *;
    DecodeInverts(EscapeAll(b));
  }

  lemma OneMoreUnit(u: Unit, us: seq<Unit>, x: nat, b: Bytes)
    requires Fits(u, PrintUnits(us)) && Meaning(u) == Some([x]) && LegalUnits(us) && Meanings(us) == Some(b)
    ensures LegalUnits([u] + us) && Meanings([u] + us) == Some([x] + b)
  {
    hide Fits, Meaning;
    assert ([u] + us)[1..] == us;
  }
}
