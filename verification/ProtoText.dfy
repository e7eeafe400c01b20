/**
 The structural reader of Protocol Buffers text format in gateway/model_config.py: it finds the
 top-level `name` and `backend` of a model configuration. This module works on tokens; UTF-8
 decoding is a parameter.
 */
module ProtoText {
  import opened Wrappers
  import opened ProtoString

  datatype Kind = Str | Ident | Num | Punct

  datatype Token = Token(kind: Kind, text: string)

  const DEPTH_LIMIT := 64

  datatype Identity = Identity(name: Option<string>, backend: Option<string>)

  const NOBODY := Identity(None, None)

  type Utf8Decoder = Bytes -> Option<string>

  // ---------------------------------------------------------------- reading

  /** The text of the next token; no token has an empty text. */
  function Peek(ts: seq<Token>): string {
    if ts == [] then "" else ts[0].text
  }

  /** What a string token holds between its quotes, decoded. */
  function Literal(t: Token): Option<Bytes> {
    if |t.text| < 2 then None else Decode(t.text[1..|t.text| - 1])
  }

  /** Adjacent literals, joined. */
  function Joined(ts: seq<Token>): (r: Result<(Bytes, seq<Token>)>)
    ensures r.Ok? ==> |r.value.1| <= |ts| && (ts != [] && ts[0].kind.Str? ==> |r.value.1| < |ts|)
  {
    if ts == [] || !ts[0].kind.Str? then Ok(([], ts)) else
      var bytes, more := Literal(ts[0]), Joined(ts[1..]);
      if bytes.None? || more.Fail? then Fail else Ok((bytes.value + more.value.0, more.value.1))
  }

  predicate OpensMessage(text: string) {
    text == "{" || text == "<"
  }

  /** `value`: what was parsed if it is a string, and the tokens behind. */
  function Value(utf8: Utf8Decoder, ts: seq<Token>, depth: nat, messages: bool): (r: Result<(Option<string>, seq<Token>)>)
    ensures r.Ok? ==> |r.value.1| < |ts|
    decreases |ts|, 1
  {
    if depth > DEPTH_LIMIT || ts == [] then Fail
    else if OpensMessage(Peek(ts)) then
      var inner := Fields(utf8, ts[1..], if Peek(ts) == "{" then "}" else ">", depth + 1, NOBODY);
      if inner.Fail? then Fail else Ok((None, inner.value.1))
    else if Peek(ts) == "[" then
      if Peek(ts[1..]) == "]" then Ok((None, ts[2..])) else Items(utf8, ts[1..], depth, messages)
    else if ts[0].kind.Str? then StringValue(utf8, ts)
    else if ts[0].kind.Ident? || ts[0].kind.Num? then Ok((None, ts[1..]))
    else Fail
  }

  function StringValue(utf8: Utf8Decoder, ts: seq<Token>): (r: Result<(Option<string>, seq<Token>)>)
    requires ts != [] && ts[0].kind.Str?
    ensures r.Ok? ==> |r.value.1| < |ts|
  {
    var joined := Joined(ts);
    if joined.Fail? || utf8(joined.value.0).None? then Fail else Ok((utf8(joined.value.0), joined.value.1))
  }

  /** The elements of a list that is not empty, up to its closing bracket; a comma may precede that. */
  function Items(utf8: Utf8Decoder, ts: seq<Token>, depth: nat, messages: bool): (r: Result<(Option<string>, seq<Token>)>)
    ensures r.Ok? ==> |r.value.1| < |ts|
    decreases |ts|, 2
  {
    if messages && !OpensMessage(Peek(ts)) then Fail else
      var first := Value(utf8, ts, depth + 1, false);
      if first.Fail? then Fail else
        var rest := first.value.1;
        if Peek(rest) == "," then
          if Peek(rest[1..]) == "]" then Ok((None, rest[2..])) else Items(utf8, rest[1..], depth, messages)
        else if Peek(rest) == "]" then Ok((None, rest[1..]))
        else Fail
  }

  /** A field's effect: the first `name` and `backend` at the top level count, and must be proper strings. */
  function Noted(id: Identity, depth: nat, name: string, parsed: Option<string>): Option<Identity> {
    if depth > 0 || (name != "name" && name != "backend") then Some(id)
    else if (if name == "name" then id.name else id.backend).Some? then None
    else if parsed.None? || parsed.value == "" || '\0' in parsed.value then None
    else Some(if name == "name" then id.(name := parsed) else id.(backend := parsed))
  }

  function SkipSeparator(ts: seq<Token>): seq<Token> {
    if Peek(ts) == "," || Peek(ts) == ";" then ts[1..] else ts
  }

  /** `fields` up to the token `end`, or up to the last token. */
  function Fields(utf8: Utf8Decoder, ts: seq<Token>, end: string, depth: nat, id: Identity): (r: Result<(Identity, seq<Token>)>)
    ensures r.Ok? ==> |r.value.1| <= |ts|
    decreases |ts|, 0
  {
    if ts == [] then if end == "" then Ok((id, ts)) else Fail
    else if end != "" && Peek(ts) == end then Ok((id, ts[1..]))
    else if !ts[0].kind.Ident? then Fail
    else
      var next := Peek(ts[1..]);
      if next != ":" && next != "[" && !OpensMessage(next) then Fail else
        var parsed := Value(utf8, if next == ":" then ts[2..] else ts[1..], depth, next == "[");
        if parsed.Fail? then Fail else
          var more := Noted(id, depth, ts[0].text, parsed.value.0);
          if more.None? then Fail else Fields(utf8, SkipSeparator(parsed.value.1), end, depth, more.value)
  }

  /** The reader on the tokens of a whole file. */
  function Read(utf8: Utf8Decoder, ts: seq<Token>): Result<Identity> {
    var r := Fields(utf8, ts, "", 0, NOBODY);
    if r.Fail? then Fail else Ok(r.value.0)
  }

  // ---------------------------------------------------------------- documents

  datatype Quoted = Quoted(quote: char, units: seq<Unit>)

  datatype Val =
    | Strings(literals: seq<Quoted>)
    | Scalar(token: Token)
    | Message(angle: bool, fields: FieldList)
    | EmptyList
    | List(items: ItemList)

  datatype ItemList = LastItem(value: Val, comma: bool) | NextItem(value: Val, rest: ItemList)

  datatype Separator = Nothing | Comma | Semicolon

  datatype FieldList = NoField | Field(name: string, colon: bool, value: Val, separator: Separator, rest: FieldList)

  function Mark(text: string): Token {
    Token(Punct, text)
  }

  function PrintQuoted(q: Quoted): Token {
    Token(Str, [q.quote] + PrintUnits(q.units) + [q.quote])
  }

  function PrintStrings(qs: seq<Quoted>, rest: seq<Token>): seq<Token> {
    if qs == [] then rest else [PrintQuoted(qs[0])] + PrintStrings(qs[1..], rest)
  }

  function PrintVal(v: Val, rest: seq<Token>): seq<Token> {
    match v
    case Strings(qs) => PrintStrings(qs, rest)
    case Scalar(t) => [t] + rest
    case Message(angle, fs) => [Mark(Opening(angle))] + PrintFields(fs, [Mark(Closing(angle))] + rest)
    case EmptyList => [Mark("["), Mark("]")] + rest
    case List(items) => [Mark("[")] + PrintItems(items, rest)
  }

  function Opening(angle: bool): string { if angle then "<" else "{" }

  function Closing(angle: bool): string { if angle then ">" else "}" }

  function PrintItems(items: ItemList, rest: seq<Token>): seq<Token> {
    match items
    case LastItem(v, comma) => PrintVal(v, (if comma then [Mark(","), Mark("]")] else [Mark("]")]) + rest)
    case NextItem(v, more) => PrintVal(v, [Mark(",")] + PrintItems(more, rest))
  }

  function PrintSeparator(s: Separator, rest: seq<Token>): seq<Token> {
    match s
    case Nothing => rest
    case Comma => [Mark(",")] + rest
    case Semicolon => [Mark(";")] + rest
  }

  function PrintFields(fs: FieldList, rest: seq<Token>): seq<Token> {
    match fs
    case NoField => rest
    case Field(name, colon, v, separator, more) =>
      [Token(Ident, name)] + PrintColon(colon, PrintVal(v, PrintSeparator(separator, PrintFields(more, rest))))
  }

  function PrintColon(colon: bool, rest: seq<Token>): seq<Token> {
    if colon then [Mark(":")] + rest else rest
  }

  /** A text that is no punctuation. */
  predicate Wordy(text: string) {
    text != "" && text[0] !in ":{}<>[],;"
  }

  /** The bytes of adjacent literals. */
  function Content(qs: seq<Quoted>): Option<Bytes> {
    if qs == [] then Some([])
    else
      var first, more := Meanings(qs[0].units), Content(qs[1..]);
      if first.None? || more.None? then None else Some(first.value + more.value)
  }

  predicate LegalStrings(utf8: Utf8Decoder, qs: seq<Quoted>) {
    && qs != [] && Content(qs).Some? && utf8(Content(qs).value).Some?
    && forall i | 0 <= i < |qs| :: LegalUnits(qs[i].units) && (qs[i].quote == '"' || qs[i].quote == '\'')
  }

  predicate Legal(utf8: Utf8Decoder, v: Val) {
    match v
    case Strings(qs) => LegalStrings(utf8, qs)
    case Scalar(t) => (t.kind.Ident? || t.kind.Num?) && Wordy(t.text)
    case Message(_, fs) => LegalFields(utf8, fs)
    case EmptyList => true
    case List(items) => LegalItems(utf8, items)
  }

  predicate LegalItems(utf8: Utf8Decoder, items: ItemList) {
    match items
    case LastItem(v, _) => Legal(utf8, v)
    case NextItem(v, more) => Legal(utf8, v) && LegalItems(utf8, more)
  }

  /** Only messages, and lists of messages, may stand without a colon. */
  predicate ColonFree(v: Val) {
    v.Message? || v.EmptyList? || (v.List? && AllMessages(v.items))
  }

  predicate AllMessages(items: ItemList) {
    match items
    case LastItem(v, _) => v.Message?
    case NextItem(v, more) => v.Message? && AllMessages(more)
  }

  predicate LegalFields(utf8: Utf8Decoder, fs: FieldList) {
    match fs
    case NoField => true
    case Field(name, colon, v, _, more) =>
      Wordy(name) && (colon || ColonFree(v)) && Legal(utf8, v) && LegalFields(utf8, more)
  }

  // ---------------------------------------------------------------- what a document means

  /** The text of a field's value, if it is a string. */
  function TextOf(utf8: Utf8Decoder, v: Val): Option<string> {
    if v.Strings? && Content(v.literals).Some? then utf8(Content(v.literals).value) else None
  }

  /** What the top-level fields, and they alone, say. */
  function Says(utf8: Utf8Decoder, fs: FieldList, id: Identity): Option<Identity> {
    match fs
    case NoField => Some(id)
    case Field(name, _, v, _, more) =>
      match Noted(id, 0, name, TextOf(utf8, v))
      case None => None
      case Some(now) => Says(utf8, more, now)
  }

  function Most(a: nat, b: nat): nat { if a < b then b else a }

  /** How many levels of messages and lists lie inside a value. */
  function Deep(v: Val): nat {
    match v
    case Message(_, fs) => DeepFields(fs)
    case List(items) => DeepItems(items)
    case _ => 0
  }

  function DeepItems(items: ItemList): nat {
    match items
    case LastItem(v, _) => 1 + Deep(v)
    case NextItem(v, more) => Most(1 + Deep(v), DeepItems(more))
  }

  function DeepFields(fs: FieldList): nat {
    match fs
    case NoField => 0
    case Field(_, _, v, _, more) => Most(1 + Deep(v), DeepFields(more))
  }

  predicate Fits(v: Val, depth: nat) {
    && depth <= DEPTH_LIMIT
    && match v
       case Message(_, fs) => FieldsFit(fs, depth + 1)
       case List(items) => ItemsFit(items, depth + 1)
       case _ => true
  }

  predicate ItemsFit(items: ItemList, depth: nat) {
    match items
    case LastItem(v, _) => Fits(v, depth)
    case NextItem(v, more) => Fits(v, depth) && ItemsFit(more, depth)
  }

  predicate FieldsFit(fs: FieldList, depth: nat) {
    match fs
    case NoField => true
    case Field(_, _, v, _, more) => Fits(v, depth) && FieldsFit(more, depth)
  }

  lemma {:induction false} FitsIsDeep(v: Val, depth: nat)
    ensures Fits(v, depth) <==> depth + Deep(v) <= DEPTH_LIMIT
    decreases v
  {
    match v
    case Message(_, fs) => FieldsFitIsDeep(fs, depth);
    case List(items) => ItemsFitIsDeep(items, depth);
    case _ =>
  }

  lemma {:induction false} ItemsFitIsDeep(items: ItemList, depth: nat)
    ensures ItemsFit(items, depth + 1) <==> depth + DeepItems(items) <= DEPTH_LIMIT
    decreases items
  {
    FitsIsDeep(items.value, depth + 1);
    if items.NextItem? { ItemsFitIsDeep(items.rest, depth); }
  }

  lemma {:induction false} FieldsFitIsDeep(fs: FieldList, depth: nat)
    ensures depth <= DEPTH_LIMIT ==> (FieldsFit(fs, depth + 1) <==> depth + DeepFields(fs) <= DEPTH_LIMIT)
    ensures fs.NoField? ==> FieldsFit(fs, depth + 1)
    decreases fs
  {
    if fs.Field? {
      FitsIsDeep(fs.value, depth + 1);
      FieldsFitIsDeep(fs.rest, depth);
    }
  }

  // ---------------------------------------------------------------- reading what was printed

  /** The next token, if any, is no string. */
  predicate NoStringNext(ts: seq<Token>) {
    ts == [] || !ts[0].kind.Str?
  }

  lemma {:induction false} ReadStrings(qs: seq<Quoted>, rest: seq<Token>)
    requires Content(qs).Some? && NoStringNext(rest)
    requires forall i | 0 <= i < |qs| :: LegalUnits(qs[i].units)
    ensures Joined(PrintStrings(qs, rest)) == Ok((Content(qs).value, rest))
  {
    hide LegalUnits, Decode, Meanings, PrintUnits;
    if qs != [] {
      var t, more := PrintQuoted(qs[0]), PrintStrings(qs[1..], rest);
      DecodeInverts(qs[0].units);
      assert t.text[1..|t.text| - 1] == PrintUnits(qs[0].units);
      ReadStrings(qs[1..], rest);
      assert ([t] + more)[1..] == more;
    }
  }

  lemma Behind(t: Token, rest: seq<Token>)
    ensures ([t] + rest)[0] == t && ([t] + rest)[1..] == rest && Peek([t] + rest) == t.text
  {}

  lemma WordIsNoMark(text: string)
    requires Wordy(text)
    ensures text !in {":", "{", "}", "<", ">", "[", "]", ",", ";"}
  {}

  ghost predicate ReadsValue(utf8: Utf8Decoder, ts: seq<Token>, depth: nat, messages: bool, v: Val, rest: seq<Token>) {
    Value(utf8, ts, depth, messages) == if Fits(v, depth) then Ok((TextOf(utf8, v), rest)) else Fail
  }

  /** A printed value is read back up to its end, unless it nests too deep. */
  lemma {:induction false} ReadVal(utf8: Utf8Decoder, v: Val, rest: seq<Token>, depth: nat, messages: bool)
    requires Legal(utf8, v) && NoStringNext(rest) && (messages ==> ColonFree(v))
    ensures ReadsValue(utf8, PrintVal(v, rest), depth, messages, v, rest)
    decreases v, 1
  {
    if depth <= DEPTH_LIMIT {
      match v
      case Strings(qs) => ReadStringVal(utf8, v, rest, depth, messages);
      case Scalar(t) =>
        Behind(t, rest);
        WordIsNoMark(t.text);
      case Message(angle, fs) => ReadMessageVal(utf8, v, rest, depth, messages);
      case EmptyList =>
        assert PrintVal(v, rest) == [Mark("[")] + ([Mark("]")] + rest);
        Behind(Mark("["), [Mark("]")] + rest);
      case List(items) =>
        Behind(Mark("["), PrintItems(items, rest));
        FirstOfItems(utf8, items, rest);
        ReadItems(utf8, items, rest, depth, messages);
    }
  }

  lemma ReadStringVal(utf8: Utf8Decoder, v: Val, rest: seq<Token>, depth: nat, messages: bool)
    requires Legal(utf8, v) && NoStringNext(rest) && v.Strings? && depth <= DEPTH_LIMIT
    ensures ReadsValue(utf8, PrintVal(v, rest), depth, messages, v, rest)
  {
    hide Joined, PrintUnits;
    var qs := v.literals;
    ReadStrings(qs, rest);
    Behind(PrintQuoted(qs[0]), PrintStrings(qs[1..], rest));
    assert PrintQuoted(qs[0]).text[0] == qs[0].quote;
  }

  lemma {:induction false} ReadMessageVal(utf8: Utf8Decoder, v: Val, rest: seq<Token>, depth: nat, messages: bool)
    requires Legal(utf8, v) && v.Message? && depth <= DEPTH_LIMIT
    ensures ReadsValue(utf8, PrintVal(v, rest), depth, messages, v, rest)
    decreases v, 0
  {
    hide Fields, PrintFields, FieldsFit, LegalFields;
    var close := Closing(v.angle);
    ReadFields(utf8, v.fields, [Mark(close)] + rest, close, depth + 1, NOBODY);
    FieldsEnd(utf8, close, rest, depth + 1, NOBODY);
    Behind(Mark(Opening(v.angle)), PrintFields(v.fields, [Mark(close)] + rest));
  }

  lemma FieldsEnd(utf8: Utf8Decoder, close: string, rest: seq<Token>, depth: nat, id: Identity)
    requires close != ""
    ensures Fields(utf8, [Mark(close)] + rest, close, depth, id) == Ok((id, rest))
  {
    Behind(Mark(close), rest);
  }

  /** A list does not start with its closing bracket. */
  lemma FirstOfItems(utf8: Utf8Decoder, items: ItemList, rest: seq<Token>)
    requires LegalItems(utf8, items)
    ensures Peek(PrintItems(items, rest)) != "]"
    ensures AllMessages(items) ==> OpensMessage(Peek(PrintItems(items, rest)))
  {
    match items
    case LastItem(v, comma) => FirstOfVal(utf8, v, (if comma then [Mark(","), Mark("]")] else [Mark("]")]) + rest);
    case NextItem(v, more) => FirstOfVal(utf8, v, [Mark(",")] + PrintItems(more, rest));
  }

  lemma FirstOfVal(utf8: Utf8Decoder, v: Val, rest: seq<Token>)
    requires Legal(utf8, v)
    ensures PrintVal(v, rest) != [] && Peek(PrintVal(v, rest)) !in {":", "]", ",", ";", "}", ">"}
    ensures v.Message? ==> OpensMessage(Peek(PrintVal(v, rest)))
    ensures v.List? || v.EmptyList? ==> Peek(PrintVal(v, rest)) == "["
  {
    hide PrintUnits, PrintFields, PrintItems;
    if v.Scalar? { WordIsNoMark(v.token.text); }
    if v.Strings? { assert PrintQuoted(v.literals[0]).text[0] == v.literals[0].quote; }
  }

  lemma {:induction false} ReadItems(utf8: Utf8Decoder, items: ItemList, rest: seq<Token>, depth: nat, messages: bool)
    requires LegalItems(utf8, items) && (messages ==> AllMessages(items))
    ensures Items(utf8, PrintItems(items, rest), depth, messages) ==
      if ItemsFit(items, depth + 1) then Ok((None, rest)) else Fail
    decreases items
  {
    hide Value, Fits;
    FirstOfItems(utf8, items, rest);
    match items
    case LastItem(v, comma) =>
      var behind := (if comma then [Mark(","), Mark("]")] else [Mark("]")]) + rest;
      ReadVal(utf8, v, behind, depth + 1, false);
      assert comma ==> behind[1..] == [Mark("]")] + rest && behind[2..] == rest;
      assert !comma ==> behind[1..] == rest;
    case NextItem(v, more) =>
      var next := PrintItems(more, rest);
      ReadVal(utf8, v, [Mark(",")] + next, depth + 1, false);
      Behind(Mark(","), next);
      FirstOfItems(utf8, more, rest);
      ReadItems(utf8, more, rest, depth, messages);
  }

  lemma SkipPrinted(s: Separator, rest: seq<Token>)
    requires Peek(rest) != "," && Peek(rest) != ";"
    ensures SkipSeparator(PrintSeparator(s, rest)) == rest && (NoStringNext(rest) ==> NoStringNext(PrintSeparator(s, rest)))
  {
    Behind(Mark(","), rest);
    Behind(Mark(";"), rest);
  }

  /** Where the fields of a message, or of the file, may end. */
  predicate EndsFields(rest: seq<Token>, end: string) {
    NoStringNext(rest) && Peek(rest) == end && end in {"", "}", ">"}
  }

  lemma FirstOfFields(utf8: Utf8Decoder, fs: FieldList, rest: seq<Token>, end: string)
    requires LegalFields(utf8, fs) && EndsFields(rest, end)
    ensures NoStringNext(PrintFields(fs, rest)) && Peek(PrintFields(fs, rest)) !in {",", ";"}
  {
    if fs.Field? {
      hide PrintVal;
      WordIsNoMark(fs.name);
    }
  }

  /** One printed field is read, noted, and left behind. */
  lemma {:induction false} ReadField(utf8: Utf8Decoder, fs: FieldList, rest: seq<Token>, end: string, depth: nat, id: Identity)
    requires LegalFields(utf8, fs) && fs.Field? && EndsFields(rest, end)
    ensures Fields(utf8, PrintFields(fs, rest), end, depth, id) ==
      if !Fits(fs.value, depth) then Fail
      else match Noted(id, depth, fs.name, TextOf(utf8, fs.value))
           case None => Fail
           case Some(more) => Fields(utf8, PrintFields(fs.rest, rest), end, depth, more)
    decreases fs.value, 2
  {
    var next := PrintFields(fs.rest, rest);
    FirstOfFields(utf8, fs.rest, rest, end);
    SkipPrinted(fs.separator, next);
    var behind := PrintSeparator(fs.separator, next);
    ReadVal(utf8, fs.value, behind, depth, !fs.colon && !fs.value.Message?);
    FirstOfVal(utf8, fs.value, behind);
    WordIsNoMark(fs.name);
    FieldStep(utf8, fs.name, fs.colon, fs.value, behind, end, depth, id);
  }

  lemma FieldStep(utf8: Utf8Decoder, name: string, colon: bool, v: Val, behind: seq<Token>, end: string, depth: nat, id: Identity)
    requires name !in {"", "}", ">"} && (end != "" ==> name != end)
    requires ReadsValue(utf8, PrintVal(v, behind), depth, !colon && !v.Message?, v, behind)
    requires colon || ColonFree(v)
    requires PrintVal(v, behind) != [] && Peek(PrintVal(v, behind)) != ":"
    requires v.Message? ==> OpensMessage(Peek(PrintVal(v, behind)))
    requires v.List? || v.EmptyList? ==> Peek(PrintVal(v, behind)) == "["
    ensures Fields(utf8, [Token(Ident, name)] + PrintColon(colon, PrintVal(v, behind)), end, depth, id) ==
      if !Fits(v, depth) then Fail
      else match Noted(id, depth, name, TextOf(utf8, v))
           case None => Fail
           case Some(more) => Fields(utf8, SkipSeparator(behind), end, depth, more)
  {
    hide Value, PrintVal, Fits, Noted, TextOf, SkipSeparator;
    var printed := PrintVal(v, behind);
    Behind(Token(Ident, name), PrintColon(colon, printed));
    if colon {
      Behind(Mark(":"), printed);
      assert ([Token(Ident, name)] + ([Mark(":")] + printed))[2..] == printed;
    }
  }

  /** Printed nested fields are skipped up to the end. */
  lemma {:induction false} ReadFields(utf8: Utf8Decoder, fs: FieldList, rest: seq<Token>, end: string, depth: nat, id: Identity)
    requires LegalFields(utf8, fs) && EndsFields(rest, end) && depth > 0
    ensures Fields(utf8, PrintFields(fs, rest), end, depth, id) ==
      if FieldsFit(fs, depth) then Fields(utf8, rest, end, depth, id) else Fail
    decreases fs
  {
    if fs.Field? {
      hide Fields, PrintFields, Fits, TextOf;
      ReadField(utf8, fs, rest, end, depth, id);
      ReadFields(utf8, fs.rest, rest, end, depth, id);
    }
  }

  /** Printed top-level fields say what they say. */
  lemma {:induction false} ReadTop(utf8: Utf8Decoder, fs: FieldList, id: Identity)
    requires LegalFields(utf8, fs)
    ensures Fields(utf8, PrintFields(fs, []), "", 0, id) ==
      match Says(utf8, fs, id)
      case None => Fail
      case Some(now) => if FieldsFit(fs, 0) then Ok((now, [])) else Fail
    decreases fs
  {
    if fs.Field? {
      hide Fields, PrintFields, Fits, TextOf, Noted;
      ReadField(utf8, fs, [], "", 0, id);
      match Noted(id, 0, fs.name, TextOf(utf8, fs.value))
      case None =>
      case Some(now) => ReadTop(utf8, fs.rest, now);
    }
  }

  /**
   Reading the tokens of any printed document gives exactly what its top-level fields say, if
   nothing nests deeper than the limit, and fails otherwise. Nested fields, and look-alikes in
   strings, say nothing.
   */
  lemma ReadPrinted(utf8: Utf8Decoder, fs: FieldList)
    requires LegalFields(utf8, fs)
    ensures Read(utf8, PrintFields(fs, [])) ==
      match Says(utf8, fs, NOBODY)
      case None => Fail
      case Some(id) => if DeepFields(fs) <= DEPTH_LIMIT + 1 then Ok(id) else Fail
  {
    hide Fields, PrintFields, Says;
    ReadTop(utf8, fs, NOBODY);
    TopFitIsDeep(fs);
  }

  lemma {:induction false} TopFitIsDeep(fs: FieldList)
    ensures FieldsFit(fs, 0) <==> DeepFields(fs) <= DEPTH_LIMIT + 1
  {
    if fs.Field? {
      FitsIsDeep(fs.value, 0);
      TopFitIsDeep(fs.rest);
    }
  }

  // ---------------------------------------------------------------- the first and only

  /** How often a name occurs at the top level. */
  function Times(fs: FieldList, name: string): nat {
    match fs
    case NoField => 0
    case Field(n, _, _, _, more) => (if n == name then 1 else 0) + Times(more, name)
  }

  /** The value of the first top-level field of that name. */
  function First(utf8: Utf8Decoder, fs: FieldList, name: string): Option<string> {
    match fs
    case NoField => None
    case Field(n, _, v, _, more) => if n == name then TextOf(utf8, v) else First(utf8, more, name)
  }

  function Part(id: Identity, name: string): Option<string> {
    if name == "name" then id.name else id.backend
  }

  /** A duplicate always fails, and what is read is the one field's value. */
  lemma {:induction false} OnlyOne(utf8: Utf8Decoder, fs: FieldList, id: Identity, name: string)
    requires name == "name" || name == "backend"
    ensures Says(utf8, fs, id).Some? ==>
      var now := Part(Says(utf8, fs, id).value, name);
      && Times(fs, name) + (if Part(id, name).Some? then 1 else 0) <= 1
      && now == (if Part(id, name).Some? then Part(id, name) else First(utf8, fs, name))
      && (now.Some? <==> Part(id, name).Some? || Times(fs, name) == 1)
  {
    if fs.Field? {
      match Noted(id, 0, fs.name, TextOf(utf8, fs.value))
      case None =>
      case Some(now) => OnlyOne(utf8, fs.rest, now, name);
    }
  }
}
