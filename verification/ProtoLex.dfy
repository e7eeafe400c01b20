/** The tokens of Protocol Buffers text format as gateway/model_config.py cuts them, over ASCII. */
module ProtoLex {
  import opened Wrappers
  import opened Text
  import opened ProtoString
  import opened ProtoText
  import ProtoReader

  // ---------------------------------------------------------------- the token pattern

  datatype Class = Spaces | Digits | HexDigits | NameChars | LineChars

  predicate Start(c: char) { 'a' <= c <= 'z' || 'A' <= c <= 'Z' || c == '_' }

  predicate In(c: char, cls: Class) {
    match cls
    case Spaces => IsSpace(c)
    case Digits => Digit(c)
    case HexDigits => Hex(c)
    case NameChars => Start(c) || Digit(c) || c == '.'
    case LineChars => c != '\r' && c != '\n'
  }

  /** How many characters of a class `s` starts with. */
  function Run(s: string, cls: Class): (r: nat)
    ensures r <= |s| && (r < |s| ==> !In(s[r], cls)) && forall k | 0 <= k < r :: In(s[k], cls)
  {
    if s == "" || !In(s[0], cls) then 0 else 1 + Run(s[1..], cls)
  }

  /** The length of a string's body with its closing quote. */
  function Body(s: string, quote: char): (r: Option<nat>)
    ensures r.Some? ==> 1 <= r.value <= |s|
    decreases |s|
  {
    if s == "" || s[0] == '\r' || s[0] == '\n' then None
    else if s[0] == quote then Some(1)
    else if s[0] != '\\' then More(1, Body(s[1..], quote))
    else if |s| < 2 || s[1] == '\r' || s[1] == '\n' then None
    else More(2, Body(s[2..], quote))
  }

  function More(n: nat, rest: Option<nat>): Option<nat> {
    if rest.None? then None else Some(n + rest.value)
  }

  function Exponent(s: string): (r: nat)
    ensures r <= |s|
  {
    if s == "" || (s[0] != 'e' && s[0] != 'E') then 0 else
      var k := ExponentDigits(s);
      var digits := Run(s[k..], Digits);
      if digits == 0 then 0 else k + digits
  }

  predicate SpellsNoCase(s: string, word: string) {
    AtNoCase(s, 0, word)
  }

  /** Where a fraction that may follow `n` digits ends. */
  function Fraction(s: string, n: nat): (p: nat)
    requires n <= |s|
    ensures n <= p <= |s|
  {
    if n < |s| && s[n] == '.' then n + 1 + Run(s[n + 1..], Digits) else n
  }

  function WithExponent(s: string, p: nat): (r: nat)
    requires p <= |s|
    ensures p <= r <= |s|
  {
    p + Exponent(s[p..])
  }

  /** A number without sign and suffix; zero if there is none. */
  function Decimal(s: string): (r: nat)
    ensures r <= |s|
  {
    var n := Run(s, Digits);
    if n > 0 then WithExponent(s, Fraction(s, n))
    else if |s| >= 2 && s[0] == '.' && Digit(s[1]) then WithExponent(s, 1 + Run(s[1..], Digits))
    else if SpellsNoCase(s, "infinity") then 8
    else if SpellsNoCase(s, "inf") || SpellsNoCase(s, "nan") then 3
    else 0
  }

  function Unsigned(s: string): (r: nat)
    ensures r <= |s|
  {
    if |s| >= 3 && s[0] == '0' && (s[1] == 'x' || s[1] == 'X') && Hex(s[2]) then 2 + Run(s[2..], HexDigits)
    else
      var d := Decimal(s);
      if d > 0 && d < |s| && (s[d] == 'f' || s[d] == 'F') then d + 1 else d
  }

  function NumberLength(s: string): (r: nat)
    ensures r <= |s|
  {
    if s != "" && (s[0] == '+' || s[0] == '-') then
      if Unsigned(s[1..]) == 0 then 0 else 1 + Unsigned(s[1..])
    else Unsigned(s)
  }

  const MARKS := ":{}<>[],;"

  /** The first match of the pattern: its kind, unless it is blank or a comment, and its length. */
  function First(s: string): (r: Option<(Option<Kind>, nat)>)
    requires s != ""
    ensures r.Some? ==> 1 <= r.value.1 <= |s|
  {
    if IsSpace(s[0]) then Some((None, Run(s, Spaces)))
    else if s[0] == '#' then Some((None, 1 + Run(s[1..], LineChars)))
    else if s[0] == '"' || s[0] == '\'' then
      match Body(s[1..], s[0])
      case None => None
      case Some(n) => Some((Some(Str), n + 1))
    else if Start(s[0]) then Some((Some(Ident), Run(s, NameChars)))
    else if NumberLength(s) > 0 then Some((Some(Num), NumberLength(s)))
    else if s[0] in MARKS then Some((Some(Punct), 1))
    else None
  }

  /** The tokens of a text; it fails where no token matches. */
  function Lex(s: string): Result<seq<Token>>
    decreases |s|
  {
    if s == "" then Ok([]) else
      var m := First(s);
      if m.None? then Fail else Also(m.value.0, s[..m.value.1], Lex(s[m.value.1..]))
  }

  function Also(kind: Option<Kind>, text: string, rest: Result<seq<Token>>): Result<seq<Token>> {
    if rest.Fail? || kind.None? then rest else Ok([Token(kind.value, text)] + rest.value)
  }

  /** The loop that collects the tokens. */
  method Tokenize(text: string) returns (r: Result<seq<Token>>)
    ensures r == Lex(text)
  {
    hide First;
    var tokens, offset := [], 0;
    assert text[0..] == text;
    BehindNone(Lex(text));
    while offset < |text|
      invariant offset <= |text|
      invariant Lex(text) == Collected(tokens, Lex(text[offset..]))
      decreases |text| - offset
    {
      var m := First(text[offset..]);
      if m.None? { return Fail; }
      var (kind, n) := m.value;
      assert text[offset..][n..] == text[offset + n..];
      if kind.Some? {
        BehindOne(tokens, Token(kind.value, text[offset..][..n]), Lex(text[offset + n..]));
        tokens := tokens + [Token(kind.value, text[offset..][..n])];
      }
      offset := offset + n;
    }
    assert tokens + [] == tokens;
    return Ok(tokens);
  }

  function Collected(tokens: seq<Token>, rest: Result<seq<Token>>): Result<seq<Token>> {
    if rest.Fail? then Fail else Ok(tokens + rest.value)
  }

  lemma BehindNone(rest: Result<seq<Token>>)
    ensures Collected([], rest) == rest
  {
    if rest.Ok? { assert [] + rest.value == rest.value; }
  }

  lemma BehindOne(tokens: seq<Token>, t: Token, rest: Result<seq<Token>>)
    ensures Collected(tokens, Collected([t], rest)) == Collected(tokens + [t], rest)
  {
    if rest.Ok? { assert tokens + ([t] + rest.value) == tokens + [t] + rest.value; }
  }

  // ---------------------------------------------------------------- writing tokens

  /** What may stand between tokens: a space, or a comment with the end of its line. */
  datatype Blank = Space(c: char) | Comment(text: string, newline: char)

  predicate LegalBlank(b: Blank) {
    match b
    case Space(c) => IsSpace(c)
    case Comment(text, newline) => (forall k | 0 <= k < |text| :: In(text[k], LineChars)) && (newline == '\r' || newline == '\n')
  }

  predicate LegalGap(gap: seq<Blank>) {
    forall b | b in gap :: LegalBlank(b)
  }

  function PrintGap(gap: seq<Blank>, rest: string): string {
    if gap == [] then rest
    else
      match gap[0]
      case Space(c) => [c] + PrintGap(gap[1..], rest)
      case Comment(text, newline) => ['#'] + (text + ([newline] + PrintGap(gap[1..], rest)))
  }

  /** Tokens with a gap behind each of them. */
  function Render(ts: seq<Token>, gaps: seq<seq<Blank>>): string
    requires |gaps| == |ts|
  {
    if ts == [] then "" else ts[0].text + PrintGap(gaps[0], Render(ts[1..], gaps[1..]))
  }

  /** A token as the pattern would cut it, given the end of the text behind it. */
  predicate Shaped(t: Token) {
    match t.kind
    case Str =>
      t.text != "" && (t.text[0] == '"' || t.text[0] == '\'') && Body(t.text[1..], t.text[0]) == Some(|t.text| - 1)
    case Ident => t.text != "" && Start(t.text[0]) && Run(t.text, NameChars) == |t.text|
    case Num => t.text != "" && !Start(t.text[0]) && NumberLength(t.text) == |t.text|
    case Punct => |t.text| == 1 && t.text[0] in MARKS
  }

  /** A name or a number ends here: at the end of the text, a blank, a comment, a quote or a mark. */
  predicate Break(next: string) {
    next == "" || IsSpace(next[0]) || next[0] == '#' || next[0] == '"' || next[0] == '\'' || next[0] in MARKS
  }

  predicate Spaced(ts: seq<Token>, gaps: seq<seq<Blank>>)
    requires |gaps| == |ts|
  {
    ts != [] ==>
      && LegalGap(gaps[0]) && Spaced(ts[1..], gaps[1..])
      && (ts[0].kind.Ident? || ts[0].kind.Num? ==> Break(PrintGap(gaps[0], Render(ts[1..], gaps[1..]))))
  }

  // ---------------------------------------------------------------- cutting what was written

  lemma {:induction false} RunStable(s: string, next: string, cls: Class)
    requires next == "" || !In(next[0], cls)
    ensures Run(s + next, cls) == Run(s, cls)
  {
    if s == "" {
      assert s + next == next;
    } else {
      assert (s + next)[1..] == s[1..] + next;
      RunStable(s[1..], next, cls);
    }
  }

  lemma BreakEnds(next: string)
    requires Break(next) && next != ""
    ensures !Digit(next[0]) && !Hex(next[0]) && !In(next[0], NameChars)
    ensures next[0] !in "eE+-.fFxX" && Lower(next[0]) !in "infatyn"
  {}

  lemma DropFront(s: string, next: string, k: nat)
    requires k <= |s|
    ensures (s + next)[k..] == s[k..] + next
  {}

  /** Where the digits of an exponent start. */
  function ExponentDigits(s: string): (k: nat)
    requires s != ""
    ensures k <= |s|
  {
    if |s| >= 2 && (s[1] == '+' || s[1] == '-') then 2 else 1
  }

  lemma ExponentStable(s: string, next: string)
    requires Break(next)
    ensures Exponent(s + next) == Exponent(s)
  {
    if next == "" {
      assert s + next == s;
    } else {
      BreakEnds(next);
      hide Break, Run;
      if s == "" {
        assert s + next == next;
      } else {
        assert |s| >= 2 ==> (s + next)[1] == s[1];
        assert |s| == 1 ==> (s + next)[1] == next[0];
        var k := ExponentDigits(s);
        assert ExponentDigits(s + next) == k;
        DropFront(s, next, k);
        RunStable(s[k..], next, Digits);
      }
    }
  }

  lemma SpellsStable(s: string, next: string, word: string)
    requires Break(next) && (forall k | 0 <= k < |word| :: word[k] in "infatyn")
    ensures SpellsNoCase(s + next, word) == SpellsNoCase(s, word)
  {
    if |s| < |word| && next != "" {
      BreakEnds(next);
      assert (s + next)[|s|] == next[0];
      assert word[|s|] in "infatyn";
    }
  }

  lemma WithExponentStable(s: string, next: string, p: nat)
    requires Break(next) && p <= |s|
    ensures WithExponent(s + next, p) == WithExponent(s, p)
  {
    hide Break, Exponent;
    DropFront(s, next, p);
    ExponentStable(s[p..], next);
  }

  lemma FractionStable(s: string, next: string, n: nat)
    requires Break(next) && n <= |s|
    ensures Fraction(s + next, n) == Fraction(s, n)
  {
    if next == "" {
      assert s + next == s;
    } else {
      BreakEnds(next);
      hide Break, Run;
      if n < |s| {
        DropFront(s, next, n + 1);
        RunStable(s[n + 1..], next, Digits);
      }
    }
  }

  lemma DecimalStable(s: string, next: string)
    requires Break(next) && next != ""
    ensures Decimal(s + next) == Decimal(s)
  {
    SpellsStable(s, next, "infinity");
    SpellsStable(s, next, "inf");
    SpellsStable(s, next, "nan");
    BreakEnds(next);
    hide Break, SpellsNoCase, Run, Fraction, WithExponent;
    RunStable(s, next, Digits);
    var n := Run(s, Digits);
    FractionStable(s, next, n);
    WithExponentStable(s, next, Fraction(s, n));
    PointStable(s, next);
  }

  /** Whether a number starts with a point. */
  predicate PointFirst(s: string) {
    |s| >= 2 && s[0] == '.' && Digit(s[1])
  }

  lemma PointStable(s: string, next: string)
    requires Break(next) && next != ""
    ensures PointFirst(s + next) == PointFirst(s)
    ensures PointFirst(s) ==>
      WithExponent(s + next, 1 + Run((s + next)[1..], Digits)) == WithExponent(s, 1 + Run(s[1..], Digits))
  {
    BreakEnds(next);
    hide Break, Run, WithExponent;
    if |s| >= 2 {
      DropFront(s, next, 1);
      RunStable(s[1..], next, Digits);
      WithExponentStable(s, next, 1 + Run(s[1..], Digits));
    }
  }

  lemma UnsignedStable(s: string, next: string)
    requires Break(next)
    ensures Unsigned(s + next) == Unsigned(s)
  {
    if next == "" {
      assert s + next == s;
    } else {
      DecimalStable(s, next);
      BreakEnds(next);
      HexStable(s, next);
      hide Break, Decimal, Run;
      assert forall k | 0 <= k < |s| :: (s + next)[k] == s[k];
      assert (s + next)[|s|] == next[0];
      if s == "" { DecimalEmpty(); }
    }
  }

  lemma HexStable(s: string, next: string)
    requires Break(next) && next != ""
    ensures |s| >= 3 ==> Run((s + next)[2..], HexDigits) == Run(s[2..], HexDigits)
  {
    BreakEnds(next);
    hide Break, Run;
    if |s| >= 3 {
      DropFront(s, next, 2);
      RunStable(s[2..], next, HexDigits);
    }
  }

  lemma DecimalEmpty()
    ensures Decimal("") == 0
  {}

  lemma NumberStable(s: string, next: string)
    requires Break(next) && s != ""
    ensures NumberLength(s + next) == NumberLength(s)
  {
    hide Break, Unsigned;
    UnsignedStable(s, next);
    DropFront(s, next, 1);
    UnsignedStable(s[1..], next);
  }

  lemma {:induction false} BodyStable(s: string, next: string, quote: char)
    requires Body(s, quote).Some?
    ensures Body(s + next, quote) == Body(s, quote)
    decreases |s|
  {
    if s[0] != quote {
      DropFront(s, next, 1);
      if s[0] != '\\' {
        BodyStable(s[1..], next, quote);
      } else {
        DropFront(s, next, 2);
        assert (s + next)[1] == s[1];
        BodyStable(s[2..], next, quote);
      }
    }
  }

  lemma MarkStarts(c: char)
    requires c in MARKS
    ensures !IsSpace(c) && c != '#' && c != '"' && c != '\'' && !Start(c) && !Digit(c) && c !in "+-." && Lower(c) !in "in"
  {}

  lemma NotSpelled(s: string, word: string)
    requires s != "" && word != "" && Lower(s[0]) != word[0]
    ensures !SpellsNoCase(s, word)
  {
    assert s[0 + 0] == s[0];
  }

  lemma MarkIsNoNumber(c: char, next: string)
    requires c in MARKS
    ensures NumberLength([c] + next) == 0
  {
    MarkStarts(c);
    var s := [c] + next;
    assert s[0] == c;
    assert Run(s, Digits) == 0;
    NotSpelled(s, "infinity");
    NotSpelled(s, "inf");
    NotSpelled(s, "nan");
    hide SpellsNoCase;
    assert Decimal(s) == 0;
  }

  /** A number starts with a digit, a sign, a point, or a letter that a name would take. */
  lemma NumberStarts(s: string)
    requires s != "" && NumberLength(s) > 0
    ensures !IsSpace(s[0]) && s[0] != '#' && s[0] != '"' && s[0] != '\''
  {
    if SpellsNoCase(s, "inf") { assert Lower(s[0]) == "inf"[0]; }
    if SpellsNoCase(s, "infinity") { assert Lower(s[0]) == "infinity"[0]; }
    if SpellsNoCase(s, "nan") { assert Lower(s[0]) == "nan"[0]; }
  }

  lemma StartIsPlain(c: char)
    requires Start(c)
    ensures !IsSpace(c) && c != '#' && c != '"' && c != '\''
  {}

  /** A token in front of a text that may follow it is cut as itself. */
  lemma CutToken(t: Token, next: string)
    requires Shaped(t) && (t.kind.Ident? || t.kind.Num? ==> Break(next))
    ensures t.text != "" && First(t.text + next) == Some((Some(t.kind), |t.text|))
  {
    var s := t.text + next;
    assert t.text != "" ==> s[0] == t.text[0];
    match t.kind
    case Str =>
      hide Body;
      DropFront(t.text, next, 1);
      BodyStable(t.text[1..], next, t.text[0]);
    case Ident =>
      if next != "" { BreakEnds(next); }
      hide Break;
      StartIsPlain(t.text[0]);
      RunStable(t.text, next, NameChars);
    case Num =>
      hide NumberLength, Break;
      NumberStable(t.text, next);
      NumberStarts(t.text);
    case Punct =>
      hide NumberLength;
      MarkStarts(t.text[0]);
      assert t.text == [t.text[0]];
      MarkIsNoNumber(t.text[0], next);
  }

  lemma {:induction false} RunDropsOne(c: char, s: string)
    requires IsSpace(c)
    ensures Lex([c] + s) == Lex(s)
    decreases |s|
  {
    hide First;
    var all := [c] + s;
    FirstSpace(all);
    assert all[1..] == s;
    var n := Run(s, Spaces);
    assert Run(all, Spaces) == 1 + n;
    assert all[1 + n..] == s[n..];
    if n > 0 {
      FirstSpace(s);
    } else {
      assert s[0..] == s;
    }
  }

  lemma FirstSpace(s: string)
    requires s != "" && IsSpace(s[0])
    ensures First(s) == Some((None, Run(s, Spaces)))
  {}

  lemma LexComment(text: string, newline: char, rest: string)
    requires LegalBlank(Comment(text, newline))
    ensures Lex(['#'] + (text + ([newline] + rest))) == Lex([newline] + rest)
  {
    var behind := [newline] + rest;
    var s := ['#'] + (text + behind);
    assert s[0] == '#' && s[1..] == text + behind;
    RunStable(text, behind, LineChars);
    RunWhole(text);
    assert s[1 + |text|..] == behind;
    assert First(s) == Some((None, 1 + |text|));
  }

  lemma {:induction false} RunWhole(text: string)
    requires forall k | 0 <= k < |text| :: In(text[k], LineChars)
    ensures Run(text, LineChars) == |text|
  {
    if text != "" { RunWhole(text[1..]); }
  }

  lemma {:induction false} LexGap(gap: seq<Blank>, rest: string)
    requires LegalGap(gap)
    ensures Lex(PrintGap(gap, rest)) == Lex(rest)
  {
    hide Lex;
    if gap != [] {
      LexGap(gap[1..], rest);
      assert LegalBlank(gap[0]);
      match gap[0]
      case Space(c) => RunDropsOne(c, PrintGap(gap[1..], rest));
      case Comment(text, newline) =>
        LexComment(text, newline, PrintGap(gap[1..], rest));
        RunDropsOne(newline, PrintGap(gap[1..], rest));
    }
  }

  lemma LexOne(s: string, n: nat, kind: Kind)
    requires s != "" && n <= |s| && First(s) == Some((Some(kind), n))
    ensures Lex(s) == Also(Some(kind), s[..n], Lex(s[n..]))
  {}

  /** Cutting written tokens gives them back, whatever blanks and comments stand between them. */
  lemma {:induction false} LexRendered(ts: seq<Token>, gaps: seq<seq<Blank>>)
    requires |gaps| == |ts| && (forall t | t in ts :: Shaped(t)) && Spaced(ts, gaps)
    ensures Lex(Render(ts, gaps)) == Ok(ts)
  {
    hide Lex, First, Shaped, PrintGap;
    if ts == [] {
      LexNothing();
    } else {
      var t, behind := ts[0], Render(ts[1..], gaps[1..]);
      assert t in ts;
      var next := PrintGap(gaps[0], behind);
      CutToken(t, next);
      LexOne(t.text + next, |t.text|, t.kind);
      assert (t.text + next)[..|t.text|] == t.text && (t.text + next)[|t.text|..] == next;
      LexGap(gaps[0], behind);
      LexRendered(ts[1..], gaps[1..]);
      assert [t] + ts[1..] == ts;
    }
  }

  lemma LexNothing()
    ensures Lex("") == Ok([])
  {}

  // ---------------------------------------------------------------- writing documents

  /** Between quotes of this kind, a character that stands for itself may be neither the quote nor an end of line. */
  predicate Spells(q: Quoted) {
    forall u | u in q.units && u.Raw? :: u.c != q.quote && u.c != '\r' && u.c != '\n'
  }

  predicate SpelledName(name: string) {
    name != "" && Start(name[0]) && Run(name, NameChars) == |name|
  }

  /** Names are identifiers, and scalars identifiers or numbers. */
  predicate Spelled(v: Val) {
    match v
    case Strings(qs) => forall q | q in qs :: Spells(q)
    case Scalar(t) => Shaped(t)
    case Message(_, fs) => SpelledFields(fs)
    case EmptyList => true
    case List(items) => SpelledItems(items)
  }

  predicate SpelledItems(items: ItemList) {
    match items
    case LastItem(v, _) => Spelled(v)
    case NextItem(v, more) => Spelled(v) && SpelledItems(more)
  }

  predicate SpelledFields(fs: FieldList) {
    match fs
    case NoField => true
    case Field(name, _, v, _, more) => SpelledName(name) && Spelled(v) && SpelledFields(more)
  }

  /** Characters that a string's body takes one by one. */
  predicate Plain(s: string, quote: char) {
    forall k | 0 <= k < |s| :: s[k] != quote && s[k] != '\\' && s[k] != '\r' && s[k] != '\n'
  }

  lemma {:induction false} BodyPlain(s: string, rest: string, quote: char)
    requires Plain(s, quote)
    ensures Body(s + rest, quote) == More(|s|, Body(rest, quote))
  {
    if s == "" {
      assert s + rest == rest;
    } else {
      DropFront(s, rest, 1);
      BodyPlain(s[1..], rest, quote);
    }
  }

  lemma BodyEscape(c: char, digits: string, rest: string, quote: char)
    requires quote != '\\' && c != '\r' && c != '\n' && Plain(digits, quote)
    ensures Body(['\\', c] + digits + rest, quote) == More(2 + |digits|, Body(rest, quote))
  {
    var s := ['\\', c] + digits + rest;
    assert s[2..] == digits + rest;
    BodyPlain(digits, rest, quote);
  }

  lemma DigitsPlain(digits: string, quote: char)
    requires AllHex(digits) && (quote == '"' || quote == '\'')
    ensures Plain(digits, quote)
  {}

  /** The text of a unit is taken whole. */
  lemma BodyUnit(u: Unit, next: string, rest: string, quote: char)
    requires ProtoString.Fits(u, next) && (quote == '"' || quote == '\'') && (u.Raw? ==> u.c != quote && u.c != '\r' && u.c != '\n')
    ensures Body(PrintUnit(u) + rest, quote) == More(|PrintUnit(u)|, Body(rest, quote))
  {
    hide Body;
    match u
    case Raw(c) => BodyPlain([c], rest, quote);
    case Letter(c) =>
      BodyEscape(c, "", rest, quote);
      assert ['\\', c] + "" + rest == ['\\', c] + rest;
    case Octals(digits) =>
      OctalIsHex(digits);
      DigitsPlain(digits[1..], quote);
      BodyEscape(digits[0], digits[1..], rest, quote);
      assert ['\\', digits[0]] + digits[1..] == ['\\'] + digits;
    case Hexes(digits) =>
      DigitsPlain(digits, quote);
      BodyEscape('x', digits, rest, quote);
    case Code(digits) =>
      DigitsPlain(digits, quote);
      BodyEscape(CodeLetter(digits), digits, rest, quote);
  }

  lemma {:induction false} BodyUnits(us: seq<Unit>, rest: string, quote: char)
    requires LegalUnits(us) && (quote == '"' || quote == '\'')
    requires forall u | u in us && u.Raw? :: u.c != quote && u.c != '\r' && u.c != '\n'
    ensures Body(PrintUnits(us) + rest, quote) == More(|PrintUnits(us)|, Body(rest, quote))
  {
    hide Body, PrintUnit, ProtoString.Fits;
    if us == [] {
      assert PrintUnits(us) + rest == rest;
    } else {
      assert us[0] in us;
      BodyUnit(us[0], PrintUnits(us[1..]), PrintUnits(us[1..]) + rest, quote);
      BodyUnits(us[1..], rest, quote);
      assert PrintUnits(us) + rest == PrintUnit(us[0]) + (PrintUnits(us[1..]) + rest);
    }
  }

  lemma QuotedShaped(q: Quoted)
    requires LegalUnits(q.units) && (q.quote == '"' || q.quote == '\'') && Spells(q)
    ensures Shaped(PrintQuoted(q))
  {
    BodyUnits(q.units, [q.quote], q.quote);
    var text := PrintQuoted(q).text;
    assert text[0] == q.quote && text[1..] == PrintUnits(q.units) + [q.quote];
    assert Body([q.quote], q.quote) == Some(1);
  }

  predicate AllShaped(ts: seq<Token>) {
    forall t | t in ts :: Shaped(t)
  }

  lemma MarkShaped(text: string, rest: seq<Token>)
    requires |text| == 1 && text[0] in MARKS && AllShaped(rest)
    ensures AllShaped([Mark(text)] + rest)
  {}

  lemma {:induction false} StringsShaped(qs: seq<Quoted>, rest: seq<Token>)
    requires AllShaped(rest)
    requires forall q | q in qs :: LegalUnits(q.units) && (q.quote == '"' || q.quote == '\'') && Spells(q)
    ensures AllShaped(PrintStrings(qs, rest))
  {
    if qs != [] {
      assert qs[0] in qs;
      QuotedShaped(qs[0]);
      StringsShaped(qs[1..], rest);
      hide Shaped, PrintQuoted;
    }
  }

  /** Each token of a document's value is one that the pattern cuts. */
  lemma {:induction false} ValShaped(utf8: Utf8Decoder, v: Val, rest: seq<Token>)
    requires Legal(utf8, v) && Spelled(v) && AllShaped(rest)
    ensures AllShaped(PrintVal(v, rest))
    decreases v
  {
    match v
    case Strings(qs) =>
      forall q | q in qs ensures LegalUnits(q.units) && (q.quote == '"' || q.quote == '\'') && Spells(q) {
        var i :| 0 <= i < |qs| && qs[i] == q;
      }
      StringsShaped(qs, rest);
    case Scalar(t) => hide Shaped;
    case Message(angle, fs) =>
      hide Shaped, AllShaped;
      MarkShaped(Closing(angle), rest);
      FieldsShaped(utf8, fs, [Mark(Closing(angle))] + rest);
      MarkShaped(Opening(angle), PrintFields(fs, [Mark(Closing(angle))] + rest));
    case EmptyList =>
      hide Shaped, AllShaped;
      MarkShaped("]", rest);
      MarkShaped("[", [Mark("]")] + rest);
      assert [Mark("[")] + ([Mark("]")] + rest) == [Mark("["), Mark("]")] + rest;
    case List(items) =>
      hide Shaped, AllShaped;
      ItemsShaped(utf8, items, rest);
      MarkShaped("[", PrintItems(items, rest));
  }

  lemma {:induction false} ItemsShaped(utf8: Utf8Decoder, items: ItemList, rest: seq<Token>)
    requires LegalItems(utf8, items) && SpelledItems(items) && AllShaped(rest)
    ensures AllShaped(PrintItems(items, rest))
    decreases items
  {
    hide Shaped, AllShaped, PrintVal;
    match items
    case LastItem(v, comma) =>
      MarkShaped("]", rest);
      MarkShaped(",", [Mark("]")] + rest);
      assert [Mark(",")] + ([Mark("]")] + rest) == [Mark(","), Mark("]")] + rest;
      ValShaped(utf8, v, (if comma then [Mark(","), Mark("]")] else [Mark("]")]) + rest);
    case NextItem(v, more) =>
      ItemsShaped(utf8, more, rest);
      MarkShaped(",", PrintItems(more, rest));
      ValShaped(utf8, v, [Mark(",")] + PrintItems(more, rest));
  }

  lemma {:induction false} FieldsShaped(utf8: Utf8Decoder, fs: FieldList, rest: seq<Token>)
    requires LegalFields(utf8, fs) && SpelledFields(fs) && AllShaped(rest)
    ensures AllShaped(PrintFields(fs, rest))
    decreases fs
  {
    if fs.Field? {
      hide Shaped, AllShaped, PrintVal;
      FieldsShaped(utf8, fs.rest, rest);
      var more := PrintFields(fs.rest, rest);
      MarkShaped(",", more);
      MarkShaped(";", more);
      ValShaped(utf8, fs.value, PrintSeparator(fs.separator, more));
      var value := PrintVal(fs.value, PrintSeparator(fs.separator, more));
      MarkShaped(":", value);
      NameShaped(fs.name, PrintColon(fs.colon, value));
    }
  }

  lemma NameShaped(name: string, rest: seq<Token>)
    requires SpelledName(name) && AllShaped(rest)
    ensures AllShaped([Token(Ident, name)] + rest)
  {}

  // ---------------------------------------------------------------- files

  /** `read_model_config` on the text of a file. */
  method ReadText(utf8: Utf8Decoder, text: string) returns (r: Result<Identity>)
    ensures r == FileSays(utf8, text)
  {
    var tokens := Tokenize(text);
    if tokens.Fail? { return Fail; }
    r := ProtoReader.ReadConfig(utf8, tokens.value);
  }

  function FileSays(utf8: Utf8Decoder, text: string): Result<Identity> {
    match Lex(text)
    case Fail => Fail
    case Ok(ts) => Read(utf8, ts)
  }

  /**
   For any document, however it is written, with any blanks and comments between its tokens: the
   reader returns exactly what the top-level fields say, if nothing nests deeper than the limit.
   */
  lemma FilesReadBack(utf8: Utf8Decoder, fs: FieldList, lead: seq<Blank>, gaps: seq<seq<Blank>>)
    requires LegalFields(utf8, fs) && SpelledFields(fs)
    requires LegalGap(lead) && |gaps| == |PrintFields(fs, [])| && Spaced(PrintFields(fs, []), gaps)
    ensures FileSays(utf8, PrintGap(lead, Render(PrintFields(fs, []), gaps))) ==
      match Says(utf8, fs, NOBODY)
      case None => Fail
      case Some(id) => if DeepFields(fs) <= DEPTH_LIMIT + 1 then Ok(id) else Fail
  {
    FieldsShaped(utf8, fs, []);
    hide Lex, Render, PrintGap, PrintFields, Spaced, Read, Shaped;
    LexGap(lead, Render(PrintFields(fs, []), gaps));
    LexRendered(PrintFields(fs, []), gaps);
    ReadPrinted(utf8, fs);
  }
}
