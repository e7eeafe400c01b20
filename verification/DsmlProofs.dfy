/** Printing DSML blocks, and the proof that validation reads back exactly what was printed. */
module DsmlProofs {
  import opened Wrappers
  import opened Text
  import opened Dsml

  // ---------------------------------------------------------------- printed blocks

  /** A parameter as written: `lead`, `gap` and `endGap` are spaces, `raw` stands between its tags. */
  datatype Param<V> = Param(lead: string, gap: string, key: string, argument: Argument<V>, raw: string, endGap: string)

  datatype Invoke<V> = Invoke(lead: string, gap: string, name: string, params: seq<Param<V>>, tail: string, endGap: string)

  datatype Block<V> = Block(word: Word, gap: string, invokes: seq<Invoke<V>>, tail: string, endGap: string)

  function StringTag<V>(a: Argument<V>): string {
    if a.Literal? then IS_STRING else IS_JSON
  }

  /** A printed opening parameter tag, in front of `rest`. */
  function PrintOpenParam<V>(p: Param<V>, rest: string): string {
    OPEN + (p.gap + (PARAMETER_NAME + (p.key + (STRING_IS + (StringTag(p.argument) + rest)))))
  }

  /** A printed value with its closing tag, in front of `rest`. */
  function PrintValue<V>(p: Param<V>, rest: string): string {
    p.raw + (CLOSE + (p.endGap + (END_PARAMETER + rest)))
  }

  function PrintParam<V>(p: Param<V>, rest: string): string {
    p.lead + PrintOpenParam(p, PrintValue(p, rest))
  }

  function PrintParams<V>(ps: seq<Param<V>>, rest: string): string {
    if ps == [] then rest else PrintParam(ps[0], PrintParams(ps[1..], rest))
  }

  function PrintInvoke<V>(i: Invoke<V>, rest: string): string {
    i.lead + PrintOpenInvoke(i, PrintParams(i.params, PrintCloseInvoke(i, rest)))
  }

  function PrintInvokes<V>(ivs: seq<Invoke<V>>, rest: string): string {
    if ivs == [] then rest else PrintInvoke(ivs[0], PrintInvokes(ivs[1..], rest))
  }

  function PrintEnd<V>(b: Block<V>): string {
    CLOSE + (b.endGap + (WordTag(b.word) + ""))
  }

  function PrintBlock<V>(b: Block<V>): string {
    OPEN + (b.gap + (WordTag(b.word) + PrintInvokes(b.invokes, b.tail + PrintEnd(b))))
  }

  predicate Spaces(s: string) {
    AllSpace(s, 0, |s|)
  }

  /** A name that can stand between the quotes of a tag. */
  predicate LegalName(s: string) {
    s != "" && forall k | 0 <= k < |s| :: NameChar(s[k])
  }

  ghost predicate LegalParam<V>(codec: Codec<V>, p: Param<V>) {
    && Spaces(p.lead) && Spaces(p.gap) && Spaces(p.endGap) && LegalName(p.key)
    && !Contains(p.raw, DSML)
    && match p.argument
       case Literal(t) => p.raw == t
       case Decoded(v) => codec.parse(p.raw) == Some(v) && !codec.isString(v)
  }

  function Arguments<V>(ps: seq<Param<V>>): (r: seq<(string, Argument<V>)>)
    ensures |r| == |ps| && forall i | 0 <= i < |ps| :: r[i] == (ps[i].key, ps[i].argument)
  {
    seq(|ps|, i requires 0 <= i < |ps| => (ps[i].key, ps[i].argument))
  }

  ghost predicate DistinctKeys<V>(ps: seq<Param<V>>) {
    forall i, j | 0 <= i < j < |ps| :: ps[i].key != ps[j].key
  }

  ghost predicate LegalInvoke<V>(codec: Codec<V>, tools: set<string>, i: Invoke<V>) {
    && Spaces(i.lead) && Spaces(i.gap) && Spaces(i.tail) && Spaces(i.endGap)
    && LegalName(i.name) && i.name in tools
    && (forall p | p in i.params :: LegalParam(codec, p))
    && DistinctKeys(i.params)
  }

  ghost predicate LegalBlock<V>(codec: Codec<V>, tools: set<string>, b: Block<V>) {
    && Spaces(b.gap) && Spaces(b.tail) && Spaces(b.endGap)
    && b.invokes != [] && (forall i | i in b.invokes :: LegalInvoke(codec, tools, i))
  }

  function CallsOf<V>(ivs: seq<Invoke<V>>): seq<Call<V>> {
    if ivs == [] then [] else [Call(ivs[0].name, Arguments(ivs[0].params))] + CallsOf(ivs[1..])
  }

  // ---------------------------------------------------------------- unpacking printed text

  /** What is left of `s` from `c` on is `rest`. */
  predicate Left(s: string, c: nat, rest: string) {
    c <= |s| && s[c..] == rest
  }

  lemma TakePiece(s: string, c: nat, piece: string, rest: string)
    requires Left(s, c, piece + rest)
    ensures At(s, c, piece) && Left(s, c + |piece|, rest)
  {
    assert s[c..c + |piece|] == (piece + rest)[..|piece|] == piece;
    assert s[c + |piece|..] == (piece + rest)[|piece|..] == rest;
  }

  /** `mark`, spaces and `token` stand at `c`. */
  predicate TagAt(s: string, c: nat, mark: string, gap: string, token: string) {
    At(s, c, mark) && At(s, c + |mark|, gap) && At(s, c + |mark| + |gap|, token)
  }

  function TagLength(mark: string, gap: string, token: string): nat {
    |mark| + |gap| + |token|
  }

  lemma TakeTag(s: string, c: nat, mark: string, gap: string, token: string, rest: string)
    requires Left(s, c, mark + (gap + (token + rest)))
    ensures TagAt(s, c, mark, gap, token) && Left(s, c + TagLength(mark, gap, token), rest)
  {
    TakePiece(s, c, mark, gap + (token + rest));
    TakePiece(s, c + |mark|, gap, token + rest);
    TakePiece(s, c + |mark| + |gap|, token, rest);
  }

  // ---------------------------------------------------------------- reading one piece

  lemma SpacesAt(s: string, c: nat, gap: string)
    requires At(s, c, gap) && Spaces(gap) && c + |gap| < |s| && !IsSpace(s[c + |gap|])
    ensures SkipSpace(s, c) == c + |gap|
  {
    forall k | c <= k < c + |gap| ensures IsSpace(s[k]) {
      AtChar(s, c, gap, k - c);
    }
    SkipSpaceUnique(s, c, c + |gap|);
  }

  lemma SkipGap(s: string, c: nat, mark: string, gap: string, token: string)
    requires TagAt(s, c, mark, gap, token) && Spaces(gap) && token != "" && !IsSpace(token[0])
    ensures SkipSpace(s, c + |mark|) == c + |mark| + |gap|
    ensures s[c + |mark| + |gap|] == token[0]
  {
    AtChar(s, c + |mark| + |gap|, token, 0);
    SpacesAt(s, c + |mark|, gap);
  }

  lemma ReadTag(s: string, c: nat, mark: string, gap: string, token: string)
    requires TagAt(s, c, mark, gap, token) && Spaces(gap) && token != "" && !IsSpace(token[0])
    ensures Tag(s, c, mark, token) == Some(c + TagLength(mark, gap, token))
  {
    SkipGap(s, c, mark, gap, token);
  }

  /** A tag with another word is not read. */
  lemma ReadOther(s: string, c: nat, mark: string, gap: string, token: string, other: string)
    requires TagAt(s, c, mark, gap, token) && Spaces(gap)
    requires token != "" && !IsSpace(token[0]) && other != "" && other[0] != token[0]
    ensures Tag(s, c, mark, other).None?
  {
    SkipGap(s, c, mark, gap, token);
    NotAt(s, c + |mark| + |gap|, other, 0);
  }

  lemma OpenIsNotClose(s: string, c: nat)
    requires At(s, c, OPEN)
    ensures !At(s, c, CLOSE)
  {
    AtChar(s, c, OPEN, 1);
    NotAt(s, c, CLOSE, 1);
  }

  lemma ReadName(s: string, c: nat, name: string, end: string)
    requires At(s, c, name) && At(s, c + |name|, end) && LegalName(name) && end != "" && !NameChar(end[0])
    ensures Name(s, c, end) == Some((c + |name|, c + |name| + |end|)) && s[c..c + |name|] == name
  {
    AtChar(s, c + |name|, end, 0);
    forall k | c <= k < c + |name| ensures NameChar(s[k]) {
      AtChar(s, c, name, k - c);
    }
    NameEndUnique(s, c, c + |name|);
  }

  lemma NameEndUnique(s: string, c: nat, e: nat)
    requires c <= e < |s| && !NameChar(s[e]) && forall k | c <= k < e :: NameChar(s[k])
    ensures NameEnd(s, c) == e
  {}

  // ---------------------------------------------------------------- no closing tag in between

  /** Nothing in `s[c..d]` starts a closing calls tag. */
  predicate NoEndCalls(s: string, c: nat, d: nat) {
    forall k | c <= k < d :: CallsTag(s, k, CLOSE).None?
  }

  predicate Plain(piece: string) {
    forall k | 0 <= k < |piece| :: piece[k] != '<'
  }

  lemma Joins(s: string, c: nat, d: nat, e: nat)
    requires NoEndCalls(s, c, d) && NoEndCalls(s, d, e)
    ensures NoEndCalls(s, c, e)
  {
    hide CallsTag;
  }

  lemma NameIsPlain(name: string)
    requires LegalName(name)
    ensures Plain(name)
  {}

  lemma WordsArePlain<V>(a: Argument<V>)
    ensures Plain(PARAMETER_NAME) && Plain(STRING_IS) && Plain(StringTag(a)) && Plain(INVOKE_NAME) && Plain(TAG_END)
    ensures Plain(END_PARAMETER) && Plain(END_INVOKE)
  {}

  lemma WordIsPlain(w: Word)
    ensures Plain(WordTag(w))
  {}

  lemma SpacesArePlain(gap: string)
    requires Spaces(gap)
    ensures Plain(gap)
  {}

  lemma PlainPiece(s: string, c: nat, piece: string)
    requires At(s, c, piece) && Plain(piece)
    ensures NoEndCalls(s, c, c + |piece|)
  {
    forall k | c <= k < c + |piece| ensures CallsTag(s, k, CLOSE).None? {
      AtChar(s, c, piece, k - c);
      NotAt(s, k, CLOSE, 0);
    }
  }

  /** In text without the DSML marker, and before a closing mark, no other closing mark starts. */
  lemma NoCloseIn(s: string, c: nat, raw: string, k: nat)
    requires At(s, c, raw) && At(s, c + |raw|, CLOSE) && !Contains(raw, DSML)
    requires c <= k < c + |raw|
    ensures !At(s, k, CLOSE)
  {
    if k + |CLOSE| > c + |raw| {
      AtChar(s, c + |raw|, CLOSE, 0);
      NotAt(s, k, CLOSE, c + |raw| - k);
    } else if At(s, k, CLOSE) {
      CloseInside(s, c, raw, k);
    }
  }

  lemma CloseInside(s: string, c: nat, raw: string, k: nat)
    requires At(s, c, raw) && c <= k && k + |CLOSE| <= c + |raw| && At(s, k, CLOSE)
    ensures Contains(raw, DSML)
  {
    var i := k + 2 - c;
    forall j | 0 <= j < |DSML| ensures raw[i + j] == DSML[j] {
      AtChar(s, c, raw, i + j);
      AtChar(s, k, CLOSE, j + 2);
    }
    assert At(raw, i, DSML);
  }

  lemma RawPiece(s: string, c: nat, raw: string)
    requires At(s, c, raw) && At(s, c + |raw|, CLOSE) && !Contains(raw, DSML)
    ensures NoEndCalls(s, c, c + |raw|)
    ensures forall k | c <= k < c + |raw| :: Tag(s, k, CLOSE, END_PARAMETER).None?
  {
    forall k | c <= k < c + |raw| ensures !At(s, k, CLOSE) {
      NoCloseIn(s, c, raw, k);
    }
  }

  /** Behind the `<` of a mark there is none up to the end of the word. */
  lemma TailPiece(s: string, c: nat, mark: string, gap: string, token: string)
    requires mark == OPEN || mark == CLOSE
    requires TagAt(s, c, mark, gap, token) && Spaces(gap) && Plain(token)
    ensures NoEndCalls(s, c + 1, c + TagLength(mark, gap, token))
  {
    assert Plain(mark[1..]);
    assert s[c + 1..c + |mark|] == s[c..c + |mark|][1..];
    PlainPiece(s, c + 1, mark[1..]);
    PlainPiece(s, c + |mark|, gap);
    PlainPiece(s, c + |mark| + |gap|, token);
  }

  /** An opening mark, its spaces and a word. */
  lemma OpenPiece(s: string, c: nat, gap: string, token: string)
    requires TagAt(s, c, OPEN, gap, token) && Spaces(gap) && Plain(token)
    ensures NoEndCalls(s, c, c + TagLength(OPEN, gap, token))
  {
    OpenIsNotClose(s, c);
    TailPiece(s, c, OPEN, gap, token);
  }

  /** A closing mark of another word. */
  lemma ClosePiece(s: string, c: nat, gap: string, token: string)
    requires TagAt(s, c, CLOSE, gap, token) && Spaces(gap) && Plain(token)
    requires token != "" && !IsSpace(token[0]) && token[0] != 'c' && token[0] != 't'
    ensures NoEndCalls(s, c, c + TagLength(CLOSE, gap, token))
  {
    ReadOther(s, c, CLOSE, gap, token, WordTag(Calls));
    ReadOther(s, c, CLOSE, gap, token, WordTag(ToolCalls));
    TailPiece(s, c, CLOSE, gap, token);
  }

  // ---------------------------------------------------------------- reading before the end

  /** The body of a block ends at `end`, where its closing mark starts. */
  predicate EndsAt(block: string, end: nat) {
    end < |block| && block[end] == '<'
  }

  lemma SkipsTo(block: string, c: nat, end: nat, lead: string)
    requires EndsAt(block, end) && At(block, c, lead) && Spaces(lead) && c + |lead| <= end
    requires !IsSpace(block[c + |lead|])
    ensures Skip(block, c, end) == c + |lead|
  {
    if c < end {
      forall k | c <= k < c + |lead| ensures IsSpace(block[..end][k]) {
        AtChar(block, c, lead, k - c);
      }
      SkipSpaceUnique(block[..end], c, c + |lead|);
    }
  }

  lemma AtCut(s: string, c: nat, end: nat, piece: string)
    requires At(s, c, piece) && c + |piece| <= end <= |s|
    ensures At(s[..end], c, piece)
  {
    assert s[..end][c..c + |piece|] == s[c..c + |piece|];
  }

  lemma {:induction false} FirstEndParameter(s: string, c: nat, stop: nat, next: nat)
    requires c <= stop && Tag(s, stop, CLOSE, END_PARAMETER) == Some(next)
    requires forall k | c <= k < stop :: Tag(s, k, CLOSE, END_PARAMETER).None?
    ensures FindEndParameter(s, c) == Some((stop, next))
    decreases stop - c
  {
    if c < stop { FirstEndParameter(s, c + 1, stop, next); }
  }

  /** The closing tag after a value is the first one, within the body too. */
  lemma FindsEndParameter(block: string, c: nat, end: nat, raw: string, gap: string)
    requires At(block, c, raw) && TagAt(block, c + |raw|, CLOSE, gap, END_PARAMETER)
    requires !Contains(raw, DSML) && Spaces(gap)
    requires c + |raw| + TagLength(CLOSE, gap, END_PARAMETER) <= end <= |block|
    ensures FindEndParameter(block[..end], c) == Some((c + |raw|, c + |raw| + TagLength(CLOSE, gap, END_PARAMETER)))
  {
    hide Contains, CallsTag, Tag, FindEndParameter;
    var body, stop := block[..end], c + |raw|;
    AtCut(block, c, end, raw);
    AtCut(block, stop, end, CLOSE);
    AtCut(block, stop + |CLOSE|, end, gap);
    AtCut(block, stop + |CLOSE| + |gap|, end, END_PARAMETER);
    ReadTag(body, stop, CLOSE, gap, END_PARAMETER);
    RawPiece(body, c, raw);
    FirstEndParameter(body, c, stop, stop + TagLength(CLOSE, gap, END_PARAMETER));
  }

  // ---------------------------------------------------------------- one parameter

  /** Where the pieces of a printed parameter start: its lead, tag, key, ..., and what follows it. */
  datatype Spots = Spots(lead: nat, tag: nat, key: nat, middle: nat, kind: nat, value: nat, close: nat, next: nat)

  function SpotsOf<V>(c: nat, p: Param<V>): Spots {
    var tag := c + |p.lead|;
    var key := tag + TagLength(OPEN, p.gap, PARAMETER_NAME);
    var middle := key + |p.key|;
    var kind := middle + |STRING_IS|;
    var value := kind + |StringTag(p.argument)|;
    var close := value + |p.raw|;
    Spots(c, tag, key, middle, kind, value, close, close + TagLength(CLOSE, p.endGap, END_PARAMETER))
  }

  predicate HeadAt<V>(s: string, at: Spots, p: Param<V>) {
    && TagAt(s, at.tag, OPEN, p.gap, PARAMETER_NAME)
    && At(s, at.key, p.key) && At(s, at.middle, STRING_IS) && At(s, at.kind, StringTag(p.argument))
  }

  predicate ValueAt<V>(s: string, at: Spots, p: Param<V>) {
    At(s, at.value, p.raw) && TagAt(s, at.close, CLOSE, p.endGap, END_PARAMETER)
  }

  lemma TakeHead<V>(s: string, at: Spots, p: Param<V>, rest: string)
    requires at == SpotsOf(at.lead, p) && Left(s, at.tag, PrintOpenParam(p, rest))
    ensures HeadAt(s, at, p) && Left(s, at.value, rest)
  {
    TakeTag(s, at.tag, OPEN, p.gap, PARAMETER_NAME, p.key + (STRING_IS + (StringTag(p.argument) + rest)));
    TakePiece(s, at.key, p.key, STRING_IS + (StringTag(p.argument) + rest));
    TakePiece(s, at.middle, STRING_IS, StringTag(p.argument) + rest);
    TakePiece(s, at.kind, StringTag(p.argument), rest);
  }

  lemma TakeValue<V>(s: string, at: Spots, p: Param<V>, rest: string)
    requires at == SpotsOf(at.lead, p) && Left(s, at.value, PrintValue(p, rest))
    ensures ValueAt(s, at, p) && Left(s, at.next, rest)
  {
    TakePiece(s, at.value, p.raw, CLOSE + (p.endGap + (END_PARAMETER + rest)));
    TakeTag(s, at.close, CLOSE, p.endGap, END_PARAMETER, rest);
  }

  lemma TakeParam<V>(s: string, at: Spots, p: Param<V>, rest: string)
    requires at == SpotsOf(at.lead, p) && Left(s, at.lead, PrintParam(p, rest))
    ensures At(s, at.lead, p.lead) && HeadAt(s, at, p) && ValueAt(s, at, p) && Left(s, at.next, rest)
  {
    TakePiece(s, at.lead, p.lead, PrintOpenParam(p, PrintValue(p, rest)));
    TakeHead(s, at, p, PrintValue(p, rest));
    TakeValue(s, at, p, rest);
  }

  lemma ReadStringTag<V>(s: string, c: nat, a: Argument<V>)
    requires At(s, c, StringTag(a))
    ensures At(s, c, IS_STRING) == a.Literal?
  {
    if a.Decoded? {
      AtChar(s, c, IS_JSON, 0);
      NotAt(s, c, IS_STRING, 0);
    }
  }

  /** `t` is a parameter tag with this key and kind, ending at `next`. */
  predicate Reads(t: Option<(string, bool, nat)>, key: string, isString: bool, next: nat) {
    t.Some? && t.value.0 == key && t.value.1 == isString && t.value.2 == next
  }

  /** An opening mark at `c` is no closing mark, and no space. */
  lemma AtOpen(s: string, c: nat, token: string)
    requires At(s, c, OPEN)
    ensures Tag(s, c, CLOSE, token).None? && s[c] == '<'
  {
    OpenIsNotClose(s, c);
    AtChar(s, c, OPEN, 0);
  }

  lemma ReadHead<V>(s: string, at: Spots, p: Param<V>)
    requires at == SpotsOf(at.lead, p) && HeadAt(s, at, p) && Spaces(p.gap) && LegalName(p.key)
    ensures Reads(ParameterTag(s, at.tag), p.key, p.argument.Literal?, at.value)
  {
    hide At, Tag, Name, LegalName, Spaces;
    ReadTag(s, at.tag, OPEN, p.gap, PARAMETER_NAME);
    ReadName(s, at.key, p.key, STRING_IS);
    ReadStringTag(s, at.kind, p.argument);
  }

  lemma PassHead<V>(s: string, at: Spots, p: Param<V>)
    requires at == SpotsOf(at.lead, p) && HeadAt(s, at, p) && Spaces(p.gap) && LegalName(p.key)
    ensures NoEndCalls(s, at.tag, at.value)
  {
    hide At, CallsTag, NoEndCalls, Plain, LegalName, Spaces, TagAt, StringTag;
    WordsArePlain(p.argument);
    NameIsPlain(p.key);
    OpenPiece(s, at.tag, p.gap, PARAMETER_NAME);
    PlainPiece(s, at.key, p.key);
    PlainPiece(s, at.middle, STRING_IS);
    PlainPiece(s, at.kind, StringTag(p.argument));
    Joins(s, at.tag, at.key, at.middle);
    Joins(s, at.tag, at.middle, at.kind);
    Joins(s, at.tag, at.kind, at.value);
  }

  /** A closing tag found from `stop` to `next`. */
  predicate Found(e: Option<(nat, nat)>, stop: nat, next: nat) {
    e.Some? && e.value.0 == stop && e.value.1 == next
  }

  lemma ReadValue<V>(s: string, at: Spots, end: nat, p: Param<V>)
    requires at == SpotsOf(at.lead, p) && ValueAt(s, at, p) && at.next <= end <= |s|
    requires Spaces(p.endGap) && !Contains(p.raw, DSML)
    ensures Found(FindEndParameter(s[..end], at.value), at.close, at.next)
    ensures s[at.value..at.close] == p.raw
  {
    FindsEndParameter(s, at.value, end, p.raw, p.endGap);
  }

  lemma PassValue<V>(s: string, at: Spots, p: Param<V>)
    requires at == SpotsOf(at.lead, p) && ValueAt(s, at, p) && Spaces(p.endGap) && !Contains(p.raw, DSML)
    ensures NoEndCalls(s, at.value, at.next)
  {
    RawPiece(s, at.value, p.raw);
    ClosePiece(s, at.close, p.endGap, END_PARAMETER);
  }

  lemma DecodeLegal<V>(codec: Codec<V>, p: Param<V>)
    requires LegalParam(codec, p)
    ensures Decode(codec, p.argument.Literal?, p.raw) == Ok(p.argument)
  {}

  /** One round of the parameter loop: a tag at `tag`, and its value from `from` to `stop`. */
  lemma ParametersRound<V>(codec: Codec<V>, s: string, end: nat, arguments: seq<(string, Argument<V>)>,
                           at: Spots, key: string, raw: string, a: Argument<V>)
    requires at.lead <= |s| && end <= |s| && at.value <= at.close <= |s| && at.next <= |s|
    requires Skip(s, at.lead, end) == at.tag && Tag(s, at.tag, CLOSE, END_INVOKE).None?
    requires Reads(ParameterTag(s, at.tag), key, a.Literal?, at.value)
    requires Found(FindEndParameter(s[..end], at.value), at.close, at.next) && s[at.value..at.close] == raw
    requires !HasKey(arguments, key) && !Contains(raw, DSML) && Decode(codec, a.Literal?, raw) == Ok(a)
    ensures Parameters(codec, s, at.lead, end, arguments) == Parameters(codec, s, at.next, end, arguments + [(key, a)])
  {
    assert ParameterTag(s, at.tag).value.0 == key;
  }

  /** What one round of the parameter loop makes of a printed parameter. */
  lemma ReadParam<V>(codec: Codec<V>, s: string, at: Spots, end: nat, p: Param<V>, rest: string,
                     arguments: seq<(string, Argument<V>)>)
    requires at == SpotsOf(at.lead, p) && Left(s, at.lead, PrintParam(p, rest))
    requires EndsAt(s, end) && at.next <= end && LegalParam(codec, p) && !HasKey(arguments, p.key)
    ensures Left(s, at.next, rest) && NoEndCalls(s, at.lead, at.next)
    ensures Parameters(codec, s, at.lead, end, arguments)
         == Parameters(codec, s, at.next, end, arguments + [(p.key, p.argument)])
  {
    TakeParam(s, at, p, rest);
    PassParam(codec, s, at, p);
    SpotsInOrder(at, p);
    hide *;
    ReadParamTags(codec, s, at, end, p);
    DecodeLegal(codec, p);
    WithinText(s, end);
    ParametersRound(codec, s, end, arguments, at, p.key, p.raw, p.argument);
  }

  lemma SpotsInOrder<V>(at: Spots, p: Param<V>)
    requires at == SpotsOf(at.lead, p)
    ensures at.lead <= at.tag <= at.key <= at.middle <= at.kind <= at.value <= at.close <= at.next
    ensures at.tag == at.lead + |p.lead|
  {}

  lemma LegalParts<V>(codec: Codec<V>, p: Param<V>)
    requires LegalParam(codec, p)
    ensures Spaces(p.lead) && Spaces(p.gap) && Spaces(p.endGap) && LegalName(p.key) && !Contains(p.raw, DSML)
  {}

  lemma WithinText(s: string, end: nat)
    requires EndsAt(s, end)
    ensures end <= |s|
  {}

  lemma PassParam<V>(codec: Codec<V>, s: string, at: Spots, p: Param<V>)
    requires at == SpotsOf(at.lead, p) && At(s, at.lead, p.lead) && HeadAt(s, at, p) && ValueAt(s, at, p) && LegalParam(codec, p)
    ensures NoEndCalls(s, at.lead, at.next)
  {
    hide At, HeadAt, ValueAt, NoEndCalls, Plain, LegalName, Spaces, Contains;
    SpacesArePlain(p.lead);
    PlainPiece(s, at.lead, p.lead);
    PassHead(s, at, p);
    PassValue(s, at, p);
    Joins(s, at.lead, at.tag, at.value);
    Joins(s, at.lead, at.value, at.next);
  }

  lemma ReadParamTags<V>(codec: Codec<V>, s: string, at: Spots, end: nat, p: Param<V>)
    requires at == SpotsOf(at.lead, p) && At(s, at.lead, p.lead) && HeadAt(s, at, p) && ValueAt(s, at, p) && LegalParam(codec, p)
    requires EndsAt(s, end) && at.next <= end
    ensures at.lead <= |s| && end <= |s| && at.value <= at.close <= |s| && at.next <= |s|
    ensures Skip(s, at.lead, end) == at.tag && Tag(s, at.tag, CLOSE, END_INVOKE).None?
    ensures Reads(ParameterTag(s, at.tag), p.key, p.argument.Literal?, at.value)
    ensures Found(FindEndParameter(s[..end], at.value), at.close, at.next) && s[at.value..at.close] == p.raw
    ensures !Contains(p.raw, DSML)
  {
    hide *;
    OpensThere(s, at, p);
    SpotsInOrder(at, p);
    WithinText(s, end);
    LegalParts(codec, p);
    AtOpen(s, at.tag, END_INVOKE);
    ReadHead(s, at, p);
    ReadValue(s, at, end, p);
    SkipsTo(s, at.lead, end, p.lead);
  }

  lemma OpensThere<V>(s: string, at: Spots, p: Param<V>)
    requires HeadAt(s, at, p)
    ensures At(s, at.tag, OPEN) && at.tag < |s| && s[at.tag] == '<' && !IsSpace(s[at.tag])
  {
    AtChar(s, at.tag, OPEN, 0);
  }

  // ---------------------------------------------------------------- all parameters of an invoke

  /** Where the text behind printed parameters starts. */
  function ParamsEnd<V>(c: nat, ps: seq<Param<V>>): (r: nat)
    ensures c <= r
    decreases |ps|
  {
    if ps == [] then c else ParamsEnd(SpotsOf(c, ps[0]).next, ps[1..])
  }

  lemma {:induction false} ReadParams<V>(codec: Codec<V>, s: string, c: nat, end: nat, ps: seq<Param<V>>, rest: string,
                                         arguments: seq<(string, Argument<V>)>)
    requires EndsAt(s, end) && Left(s, c, PrintParams(ps, rest)) && ParamsEnd(c, ps) <= end
    requires (forall p | p in ps :: LegalParam(codec, p) && !HasKey(arguments, p.key)) && DistinctKeys(ps)
    ensures Left(s, ParamsEnd(c, ps), rest) && NoEndCalls(s, c, ParamsEnd(c, ps))
    ensures Parameters(codec, s, c, end, arguments)
         == Parameters(codec, s, ParamsEnd(c, ps), end, arguments + Arguments(ps))
    decreases |ps|
  {
    MoreArguments(ps, arguments);
    if ps != [] {
      var at := SpotsOf(c, ps[0]);
      ReadParam(codec, s, at, end, ps[0], PrintParams(ps[1..], rest), arguments);
      NoLaterKey(ps, arguments);
      ReadParams(codec, s, at.next, end, ps[1..], rest, arguments + [(ps[0].key, ps[0].argument)]);
    }
  }

  lemma MoreArguments<V>(ps: seq<Param<V>>, arguments: seq<(string, Argument<V>)>)
    ensures ps == [] ==> arguments + Arguments(ps) == arguments
    ensures ps != [] ==> (arguments + [(ps[0].key, ps[0].argument)]) + Arguments(ps[1..]) == arguments + Arguments(ps)
  {}

  lemma NoLaterKey<V>(ps: seq<Param<V>>, arguments: seq<(string, Argument<V>)>)
    requires ps != [] && DistinctKeys(ps) && forall p | p in ps :: !HasKey(arguments, p.key)
    ensures forall p | p in ps[1..] :: !HasKey(arguments + [(ps[0].key, ps[0].argument)], p.key)
    ensures DistinctKeys(ps[1..])
  {
    forall p | p in ps[1..] ensures !HasKey(arguments + [(ps[0].key, ps[0].argument)], p.key) {
      var j :| 0 <= j < |ps[1..]| && ps[1..][j] == p;
      assert ps[j + 1] == p && ps[0].key != ps[j + 1].key;
    }
  }

  // ---------------------------------------------------------------- invokes

  /** Where the pieces of a printed invoke start. */
  datatype Places = Places(lead: nat, tag: nat, name: nat, close: nat, body: nat, tail: nat, end: nat, next: nat)

  function PlacesOf<V>(c: nat, i: Invoke<V>): Places {
    var tag := c + |i.lead|;
    var name := tag + TagLength(OPEN, i.gap, INVOKE_NAME);
    var close := name + |i.name|;
    var body := close + |TAG_END|;
    var tail := ParamsEnd(body, i.params);
    var end := tail + |i.tail|;
    Places(c, tag, name, close, body, tail, end, end + TagLength(CLOSE, i.endGap, END_INVOKE))
  }

  /** A printed opening invoke tag, in front of `rest`. */
  function PrintOpenInvoke<V>(i: Invoke<V>, rest: string): string {
    OPEN + (i.gap + (INVOKE_NAME + (i.name + (TAG_END + rest))))
  }

  function PrintCloseInvoke<V>(i: Invoke<V>, rest: string): string {
    i.tail + (CLOSE + (i.endGap + (END_INVOKE + rest)))
  }

  /** `t` is an invoke tag with this name, ending at `next`. */
  predicate Opens(t: Option<(string, nat)>, name: string, next: nat) {
    t.Some? && t.value.0 == name && t.value.1 == next
  }

  predicate OpenAt<V>(s: string, at: Places, i: Invoke<V>) {
    TagAt(s, at.tag, OPEN, i.gap, INVOKE_NAME) && At(s, at.name, i.name) && At(s, at.close, TAG_END)
  }

  predicate CloseAt<V>(s: string, at: Places, i: Invoke<V>) {
    At(s, at.tail, i.tail) && TagAt(s, at.end, CLOSE, i.endGap, END_INVOKE)
  }

  lemma TakeOpen<V>(s: string, at: Places, i: Invoke<V>, rest: string)
    requires at == PlacesOf(at.lead, i) && Left(s, at.tag, PrintOpenInvoke(i, rest))
    ensures OpenAt(s, at, i) && Left(s, at.body, rest)
  {
    TakeTag(s, at.tag, OPEN, i.gap, INVOKE_NAME, i.name + (TAG_END + rest));
    TakePiece(s, at.name, i.name, TAG_END + rest);
    TakePiece(s, at.close, TAG_END, rest);
  }

  lemma TakeClose<V>(s: string, at: Places, i: Invoke<V>, rest: string)
    requires at == PlacesOf(at.lead, i) && Left(s, at.tail, PrintCloseInvoke(i, rest))
    ensures CloseAt(s, at, i) && Left(s, at.next, rest)
  {
    TakePiece(s, at.tail, i.tail, CLOSE + (i.endGap + (END_INVOKE + rest)));
    TakeTag(s, at.end, CLOSE, i.endGap, END_INVOKE, rest);
  }

  lemma ReadOpen<V>(s: string, at: Places, i: Invoke<V>)
    requires at == PlacesOf(at.lead, i) && OpenAt(s, at, i) && Spaces(i.gap) && LegalName(i.name)
    ensures Opens(InvokeTag(s, at.tag), i.name, at.body)
  {
    hide At, Tag, Name, LegalName, Spaces;
    ReadTag(s, at.tag, OPEN, i.gap, INVOKE_NAME);
    ReadName(s, at.name, i.name, TAG_END);
  }

  lemma PassOpen<V>(s: string, at: Places, i: Invoke<V>)
    requires at == PlacesOf(at.lead, i) && OpenAt(s, at, i) && Spaces(i.gap) && LegalName(i.name)
    ensures NoEndCalls(s, at.tag, at.body)
  {
    hide At, CallsTag, NoEndCalls, Plain, LegalName, Spaces, TagAt, ParamsEnd;
    WordsArePlain<V>(Literal(""));
    NameIsPlain(i.name);
    OpenPiece(s, at.tag, i.gap, INVOKE_NAME);
    PlainPiece(s, at.name, i.name);
    PlainPiece(s, at.close, TAG_END);
    Joins(s, at.tag, at.name, at.close);
    Joins(s, at.tag, at.close, at.body);
  }

  lemma ReadClose<V>(codec: Codec<V>, s: string, at: Places, end: nat, i: Invoke<V>, arguments: seq<(string, Argument<V>)>)
    requires at == PlacesOf(at.lead, i) && CloseAt(s, at, i) && Spaces(i.tail) && Spaces(i.endGap)
    requires EndsAt(s, end) && at.next <= end
    ensures Parameters(codec, s, at.tail, end, arguments) == Ok((arguments, at.next))
  {
    hide *;
    ClosesThere(s, at, i);
    PlacesInOrder(at, i);
    WithinText(s, end);
    SkipsTo(s, at.tail, end, i.tail);
    ReadEndInvoke(s, at, i);
    ParametersEnd(codec, s, at.tail, at.end, end, at.next, arguments);
  }

  lemma ClosesThere<V>(s: string, at: Places, i: Invoke<V>)
    requires CloseAt(s, at, i)
    ensures At(s, at.tail, i.tail) && at.end < |s| && s[at.end] == '<' && !IsSpace(s[at.end])
  {
    AtChar(s, at.end, CLOSE, 0);
  }

  lemma ReadEndInvoke<V>(s: string, at: Places, i: Invoke<V>)
    requires at == PlacesOf(at.lead, i) && CloseAt(s, at, i) && Spaces(i.endGap)
    ensures Tag(s, at.end, CLOSE, END_INVOKE) == Some(at.next)
  {
    hide At, Spaces, Tag, ParamsEnd;
    ReadTag(s, at.end, CLOSE, i.endGap, END_INVOKE);
  }

  lemma ParametersEnd<V>(codec: Codec<V>, s: string, c: nat, at: nat, end: nat, next: nat, arguments: seq<(string, Argument<V>)>)
    requires c <= |s| && end <= |s| && Skip(s, c, end) == at && Tag(s, at, CLOSE, END_INVOKE) == Some(next)
    ensures Parameters(codec, s, c, end, arguments) == Ok((arguments, next))
  {
    hide Skip, Tag;
  }

  lemma PassClose<V>(s: string, at: Places, i: Invoke<V>)
    requires at == PlacesOf(at.lead, i) && CloseAt(s, at, i) && Spaces(i.tail) && Spaces(i.endGap)
    ensures NoEndCalls(s, at.tail, at.next)
  {
    hide *;
    PlacesInOrder(at, i);
    CloseParts(s, at, i);
    SpacesArePlain(i.tail);
    WordsArePlain<V>(Literal(""));
    PlainPiece(s, at.tail, i.tail);
    ClosePiece(s, at.end, i.endGap, END_INVOKE);
    Joins(s, at.tail, at.end, at.next);
  }

  lemma CloseParts<V>(s: string, at: Places, i: Invoke<V>)
    requires at == PlacesOf(at.lead, i) && CloseAt(s, at, i)
    ensures At(s, at.tail, i.tail) && TagAt(s, at.end, CLOSE, i.endGap, END_INVOKE)
    ensures at.next == at.end + TagLength(CLOSE, i.endGap, END_INVOKE)
    ensures END_INVOKE != "" && !IsSpace(END_INVOKE[0]) && END_INVOKE[0] != 'c' && END_INVOKE[0] != 't'
  {}

  lemma TakeInvoke<V>(s: string, at: Places, i: Invoke<V>, rest: string)
    requires at == PlacesOf(at.lead, i) && Left(s, at.lead, PrintInvoke(i, rest))
    ensures At(s, at.lead, i.lead) && OpenAt(s, at, i) && CloseAt(s, at, i)
    ensures Left(s, at.body, PrintParams(i.params, PrintCloseInvoke(i, rest))) && Left(s, at.next, rest)
  {
    hide At, TagAt, ParamsEnd;
    var r := PrintParams(i.params, PrintCloseInvoke(i, rest));
    TakePiece(s, at.lead, i.lead, PrintOpenInvoke(i, r));
    TakeOpen(s, at, i, r);
    TakeParams(s, at.body, i.params, PrintCloseInvoke(i, rest));
    TakeClose(s, at, i, rest);
  }

  lemma {:induction false} TakeParams<V>(s: string, c: nat, ps: seq<Param<V>>, rest: string)
    requires Left(s, c, PrintParams(ps, rest))
    ensures Left(s, ParamsEnd(c, ps), rest)
    decreases |ps|
  {
    if ps != [] {
      var at := SpotsOf(c, ps[0]);
      TakeParam(s, at, ps[0], PrintParams(ps[1..], rest));
      TakeParams(s, at.next, ps[1..], rest);
    }
  }

  lemma ReadInvokeHead<V>(s: string, at: Places, end: nat, i: Invoke<V>)
    requires at == PlacesOf(at.lead, i) && At(s, at.lead, i.lead) && OpenAt(s, at, i)
    requires EndsAt(s, end) && at.body <= end && Spaces(i.lead) && Spaces(i.gap) && LegalName(i.name)
    ensures Skip(s, at.lead, end) == at.tag && Opens(InvokeTag(s, at.tag), i.name, at.body)
    ensures NoEndCalls(s, at.lead, at.body)
  {
    hide *;
    OpensInvoke(s, at, i);
    PlacesInOrder(at, i);
    WithinText(s, end);
    SpacesArePlain(i.lead);
    ReadOpen(s, at, i);
    PassOpen(s, at, i);
    SkipsTo(s, at.lead, end, i.lead);
    PlainPiece(s, at.lead, i.lead);
    Joins(s, at.lead, at.tag, at.body);
  }

  lemma OpensInvoke<V>(s: string, at: Places, i: Invoke<V>)
    requires OpenAt(s, at, i)
    ensures At(s, at.tag, OPEN) && at.tag < |s| && s[at.tag] == '<' && !IsSpace(s[at.tag])
  {
    AtChar(s, at.tag, OPEN, 0);
  }

  lemma ReadAllParams<V>(codec: Codec<V>, s: string, c: nat, end: nat, ps: seq<Param<V>>, rest: string)
    requires EndsAt(s, end) && Left(s, c, PrintParams(ps, rest)) && ParamsEnd(c, ps) <= end
    requires (forall p | p in ps :: LegalParam(codec, p)) && DistinctKeys(ps)
    ensures ParamsEnd(c, ps) <= |s| && NoEndCalls(s, c, ParamsEnd(c, ps))
    ensures Parameters(codec, s, c, end, []) == Parameters(codec, s, ParamsEnd(c, ps), end, Arguments(ps))
  {
    ReadParams(codec, s, c, end, ps, rest, []);
    assert [] + Arguments(ps) == Arguments(ps);
  }

  lemma ReadInvokeBody<V>(codec: Codec<V>, s: string, at: Places, end: nat, i: Invoke<V>, rest: string)
    requires at == PlacesOf(at.lead, i) && CloseAt(s, at, i) && Left(s, at.body, PrintParams(i.params, rest))
    requires EndsAt(s, end) && at.next <= end && Spaces(i.tail) && Spaces(i.endGap)
    requires (forall p | p in i.params :: LegalParam(codec, p)) && DistinctKeys(i.params)
    ensures Parameters(codec, s, at.body, end, []) == Ok((Arguments(i.params), at.next))
    ensures NoEndCalls(s, at.body, at.next)
  {
    PlacesInOrder(at, i);
    hide *;
    ReadAllParams(codec, s, at.body, end, i.params, rest);
    ReadClose(codec, s, at, end, i, Arguments(i.params));
    PassClose(s, at, i);
    Joins(s, at.body, at.tail, at.next);
  }

  lemma PlacesInOrder<V>(at: Places, i: Invoke<V>)
    requires at == PlacesOf(at.lead, i)
    ensures at.lead <= at.tag <= at.name <= at.close <= at.body <= at.tail <= at.end <= at.next
    ensures at.tail == ParamsEnd(at.body, i.params) && at.tag == at.lead + |i.lead| && at.end == at.tail + |i.tail|
  {}

  /** What one round of the invoke loop makes of a printed invoke. */
  lemma ReadInvoke<V>(codec: Codec<V>, tools: set<string>, s: string, at: Places, end: nat, i: Invoke<V>, rest: string)
    requires at == PlacesOf(at.lead, i) && Left(s, at.lead, PrintInvoke(i, rest))
    requires EndsAt(s, end) && at.next <= end && LegalInvoke(codec, tools, i)
    ensures Left(s, at.next, rest) && NoEndCalls(s, at.lead, at.next)
    ensures Skip(s, at.lead, end) == at.tag < end && Opens(InvokeTag(s, at.tag), i.name, at.body)
    ensures Parameters(codec, s, at.body, end, []) == Ok((Arguments(i.params), at.next))
  {
    TakeInvoke(s, at, i, rest);
    ReadInvokeHead(s, at, end, i);
    ReadInvokeBody(codec, s, at, end, i, PrintCloseInvoke(i, rest));
  }

  function InvokesEnd<V>(c: nat, ivs: seq<Invoke<V>>): (r: nat)
    ensures c <= r
    decreases |ivs|
  {
    if ivs == [] then c else InvokesEnd(PlacesOf(c, ivs[0]).next, ivs[1..])
  }

  /** All printed invokes up to the closing tag of the block at `end`. */
  lemma {:induction false} ReadInvokes<V>(codec: Codec<V>, tools: set<string>, s: string, c: nat, end: nat,
                                          ivs: seq<Invoke<V>>, tail: string, rest: string)
    requires EndsAt(s, end) && Left(s, c, PrintInvokes(ivs, tail + rest)) && Spaces(tail)
    requires InvokesEnd(c, ivs) + |tail| == end
    requires forall i | i in ivs :: LegalInvoke(codec, tools, i)
    ensures Left(s, end, rest) && NoEndCalls(s, c, end)
    ensures Invokes(codec, tools, s, c, end) == Ok(CallsOf(ivs))
    decreases |ivs|
  {
    if ivs == [] {
      TakePiece(s, c, tail, rest);
      SkipsTo(s, c, end, tail);
      PlainPiece(s, c, tail);
    } else {
      var at := PlacesOf(c, ivs[0]);
      ReadInvoke(codec, tools, s, at, end, ivs[0], PrintInvokes(ivs[1..], tail + rest));
      ReadInvokes(codec, tools, s, at.next, end, ivs[1..], tail, rest);
      InvokesRound(codec, tools, s, at, end, ivs[0].name, Arguments(ivs[0].params), CallsOf(ivs[1..]));
    }
  }

  lemma InvokesRound<V>(codec: Codec<V>, tools: set<string>, s: string, at: Places, end: nat,
                        name: string, arguments: seq<(string, Argument<V>)>, rest: seq<Call<V>>)
    requires at.lead <= |s| && end <= |s| && at.body <= |s| && at.next <= |s|
    requires Skip(s, at.lead, end) == at.tag < end && Opens(InvokeTag(s, at.tag), name, at.body) && name in tools
    requires Parameters(codec, s, at.body, end, []) == Ok((arguments, at.next))
    requires Invokes(codec, tools, s, at.next, end) == Ok(rest)
    ensures Invokes(codec, tools, s, at.lead, end) == Ok([Call(name, arguments)] + rest)
  {
    assert InvokeTag(s, at.tag).value.0 == name;
  }

  // ---------------------------------------------------------------- blocks

  lemma {:induction false} FirstEndCalls(s: string, c: nat, end: nat, next: nat, w: Word)
    requires c <= end && CallsTag(s, end, CLOSE) == Some((next, w)) && NoEndCalls(s, c, end)
    ensures FindEndCalls(s, c) == Some((end, next, w))
    decreases end - c
  {
    if c < end { FirstEndCalls(s, c + 1, end, next, w); }
  }

  lemma ReadCallsTag(s: string, c: nat, mark: string, gap: string, w: Word)
    requires TagAt(s, c, mark, gap, WordTag(w)) && Spaces(gap)
    ensures CallsTag(s, c, mark) == Some((c + TagLength(mark, gap, WordTag(w)), w))
  {
    ReadTag(s, c, mark, gap, WordTag(w));
    if w.ToolCalls? { ReadOther(s, c, mark, gap, WordTag(w), WordTag(Calls)); }
  }

  /** Where the invokes of a printed block start, where its closing tag starts, and where that ends. */
  predicate BlockSpots<V>(b: Block<V>, from: nat, end: nat, next: nat) {
    && from == TagLength(OPEN, b.gap, WordTag(b.word))
    && end == InvokesEnd(from, b.invokes) + |b.tail|
    && next == end + TagLength(CLOSE, b.endGap, WordTag(b.word))
  }

  lemma TakeBlock<V>(s: string, b: Block<V>, from: nat, end: nat, next: nat)
    requires BlockSpots(b, from, end, next) && Left(s, 0, PrintBlock(b))
    ensures TagAt(s, 0, OPEN, b.gap, WordTag(b.word)) && TagAt(s, end, CLOSE, b.endGap, WordTag(b.word))
    ensures Left(s, from, PrintInvokes(b.invokes, b.tail + PrintEnd(b)))
  {
    hide At, InvokesEnd, PrintInvokes;
    TakeTag(s, 0, OPEN, b.gap, WordTag(b.word), PrintInvokes(b.invokes, b.tail + PrintEnd(b)));
    TakeInvokes(s, from, b.invokes, b.tail, PrintEnd(b));
    TakeTag(s, end, CLOSE, b.endGap, WordTag(b.word), "");
  }

  /** The closing tag stands where the lengths of the pieces say. */
  lemma {:induction false} TakeInvokes<V>(s: string, c: nat, ivs: seq<Invoke<V>>, tail: string, rest: string)
    requires Left(s, c, PrintInvokes(ivs, tail + rest))
    ensures Left(s, InvokesEnd(c, ivs) + |tail|, rest)
    decreases |ivs|
  {
    hide At, PrintInvoke, PrintParams, OpenAt, CloseAt;
    if ivs == [] {
      TakePiece(s, c, tail, rest);
    } else {
      var at := PlacesOf(c, ivs[0]);
      TakeInvoke(s, at, ivs[0], PrintInvokes(ivs[1..], tail + rest));
      TakeInvokes(s, at.next, ivs[1..], tail, rest);
    }
  }

  /** `t` is a calls tag that ends at `next`. */
  predicate Names(t: Option<(nat, Word)>, next: nat, w: Word) {
    t.Some? && t.value.0 == next && t.value.1 == w
  }

  lemma ReadStart<V>(s: string, b: Block<V>, from: nat)
    requires from == TagLength(OPEN, b.gap, WordTag(b.word)) && Spaces(b.gap)
    requires TagAt(s, 0, OPEN, b.gap, WordTag(b.word))
    ensures Names(CallsTag(s, 0, OPEN), from, b.word) && NoEndCalls(s, 0, from)
  {
    hide At, TagAt, CallsTag, Spaces, NoEndCalls, Plain, WordTag;
    ReadCallsTag(s, 0, OPEN, b.gap, b.word);
    WordIsPlain(b.word);
    OpenPiece(s, 0, b.gap, WordTag(b.word));
  }

  lemma ReadEnd<V>(s: string, b: Block<V>, end: nat, next: nat)
    requires next == end + TagLength(CLOSE, b.endGap, WordTag(b.word)) && Spaces(b.endGap)
    requires TagAt(s, end, CLOSE, b.endGap, WordTag(b.word))
    ensures Names(CallsTag(s, end, CLOSE), next, b.word) && EndsAt(s, end)
  {
    ReadCallsTag(s, end, CLOSE, b.endGap, b.word);
    AtChar(s, end, CLOSE, 0);
  }

  lemma ValidateRead<V>(codec: Codec<V>, tools: set<string>, s: string, from: nat, end: nat, next: nat, w: Word, calls: seq<Call<V>>)
    requires tools != {} && calls != [] && from <= end <= |s|
    requires Names(CallsTag(s, 0, OPEN), from, w) && Names(CallsTag(s, end, CLOSE), next, w)
    requires NoEndCalls(s, 0, end)
    requires Invokes(codec, tools, s, from, end) == Ok(calls)
    ensures Validate(codec, tools, s) == Ok(calls)
  {
    FirstEndCalls(s, 0, end, next, w);
  }

  /** A block that stands alone in `s` is validated. */
  lemma ValidateBlock<V>(codec: Codec<V>, tools: set<string>, s: string, b: Block<V>, from: nat, end: nat, next: nat)
    requires BlockSpots(b, from, end, next) && Left(s, 0, PrintBlock(b))
    requires LegalBlock(codec, tools, b) && tools != {}
    ensures Validate(codec, tools, s) == Ok(CallsOf(b.invokes))
  {
    TakeBlock(s, b, from, end, next);
    ReadStart(s, b, from);
    ReadEnd(s, b, end, next);
    ReadInvokes(codec, tools, s, from, end, b.invokes, b.tail, PrintEnd(b));
    ValidateRead(codec, tools, s, from, end, next, b.word, CallsOf(b.invokes));
  }

  /**
   Validating the printed form of any nonempty list of calls to declared tools, with distinct legal
   parameter names and values free of the DSML marker, yields exactly those calls and arguments,
   whatever spaces stand between the elements and whichever word names the block.
   */
  lemma ValidatePrinted<V>(codec: Codec<V>, tools: set<string>, b: Block<V>)
    requires LegalBlock(codec, tools, b)
    ensures Validate(codec, tools, PrintBlock(b)) == Ok(CallsOf(b.invokes))
  {
    var from := TagLength(OPEN, b.gap, WordTag(b.word));
    var end := InvokesEnd(from, b.invokes) + |b.tail|;
    assert b.invokes[0] in b.invokes;
    assert b.invokes[0].name in tools;
    assert PrintBlock(b)[0..] == PrintBlock(b);
    ValidateBlock(codec, tools, PrintBlock(b), b, from, end, end + TagLength(CLOSE, b.endGap, WordTag(b.word)));
  }
}
