/** Validation accepts printed blocks only: whatever it accepts is the printed form of the calls it answers. */
module DsmlExact {
  import opened Wrappers
  import opened Text
  import opened Dsml
  import opened DsmlProofs
  import DeepSeek

  // ---------------------------------------------------------------- putting printed text together

  lemma PutPiece(s: string, c: nat, piece: string, rest: string)
    requires At(s, c, piece) && Left(s, c + |piece|, rest)
    ensures Left(s, c, piece + rest)
  {
    assert s[c..] == s[c..c + |piece|] + s[c + |piece|..];
  }

  lemma PutTag(s: string, c: nat, mark: string, gap: string, token: string, rest: string)
    requires TagAt(s, c, mark, gap, token) && Left(s, c + TagLength(mark, gap, token), rest)
    ensures Left(s, c, mark + (gap + (token + rest)))
  {
    hide At, Left;
    PutPiece(s, c + |mark| + |gap|, token, rest);
    PutPiece(s, c + |mark|, gap, token + rest);
    PutPiece(s, c, mark, gap + (token + rest));
  }

  /** What a tag pattern has matched. */
  lemma FindTag(s: string, c: nat, mark: string, token: string) returns (gap: string)
    requires Tag(s, c, mark, token).Some?
    ensures Spaces(gap) && TagAt(s, c, mark, gap, token) && Tag(s, c, mark, token).value == c + TagLength(mark, gap, token)
  {
    var j := SkipSpace(s, c + |mark|);
    gap := s[c + |mark|..j];
    assert forall k | 0 <= k < |gap| :: gap[k] == s[c + |mark| + k];
  }

  lemma FindName(s: string, c: nat, rest: string) returns (name: string)
    requires Name(s, c, rest).Some?
    ensures var e := Name(s, c, rest).value;
      && LegalName(name) && At(s, c, name) && At(s, c + |name|, rest)
      && e.0 == c + |name| && e.1 == c + |name| + |rest| && name == s[c..e.0]
  {
    var e := NameEnd(s, c);
    name := s[c..e];
    assert forall k | 0 <= k < |name| :: name[k] == s[c + k];
  }

  lemma FindLead(s: string, c: nat, end: nat) returns (lead: string)
    requires c <= |s| && end <= |s|
    ensures var at := Skip(s, c, end);
      Spaces(lead) && At(s, c, lead) && at == c + |lead| && (c <= end ==> at <= end)
  {
    var at := Skip(s, c, end);
    lead := s[c..at];
    if c < end {
      assert forall k | 0 <= k < |lead| :: lead[k] == s[..end][c + k];
    }
  }

  // ---------------------------------------------------------------- parameters

  predicate DistinctNames<V>(arguments: seq<(string, Argument<V>)>) {
    forall i, j | 0 <= i < j < |arguments| :: arguments[i].0 != arguments[j].0
  }

  lemma AddName<V>(arguments: seq<(string, Argument<V>)>, key: string, a: Argument<V>)
    requires DistinctNames(arguments) && !HasKey(arguments, key)
    ensures DistinctNames(arguments + [(key, a)])
  {}

  lemma {:induction false} EndParameterIs(s: string, i: nat)
    requires FindEndParameter(s, i).Some?
    ensures var e := FindEndParameter(s, i).value; i <= e.0 && Tag(s, e.0, CLOSE, END_PARAMETER) == Some(e.1)
    decreases |s| - i
  {
    if i < |s| && Tag(s, i, CLOSE, END_PARAMETER).None? { EndParameterIs(s, i + 1); }
  }

  /** What an opening parameter tag has matched. */
  lemma FindOpenParam(s: string, at: nat) returns (gap: string, key: string, tag: string)
    requires ParameterTag(s, at).Some?
    ensures var t := ParameterTag(s, at).value; var n := at + TagLength(OPEN, gap, PARAMETER_NAME); var k := n + |key| + |STRING_IS|;
      && key == t.0 && tag == (if t.1 then IS_STRING else IS_JSON) && t.2 == k + |tag|
      && Spaces(gap) && LegalName(key)
      && TagAt(s, at, OPEN, gap, PARAMETER_NAME) && At(s, n, key) && At(s, n + |key|, STRING_IS) && At(s, k, tag)
  {
    gap := FindTag(s, at, OPEN, PARAMETER_NAME);
    var n := Tag(s, at, OPEN, PARAMETER_NAME).value;
    key := FindName(s, n, STRING_IS);
    tag := if ParameterTag(s, at).value.1 then IS_STRING else IS_JSON;
    hide TagAt, TagLength, LegalName;
  }

  lemma PutOpenParam<V>(s: string, at: nat, p: Param<V>, rest: string)
    requires var n := at + TagLength(OPEN, p.gap, PARAMETER_NAME); var k := n + |p.key| + |STRING_IS|;
      && TagAt(s, at, OPEN, p.gap, PARAMETER_NAME) && At(s, n, p.key) && At(s, n + |p.key|, STRING_IS)
      && At(s, k, StringTag(p.argument)) && Left(s, k + |StringTag(p.argument)|, rest)
    ensures Left(s, at, PrintOpenParam(p, rest))
  {
    var n := at + TagLength(OPEN, p.gap, PARAMETER_NAME);
    var k := n + |p.key| + |STRING_IS|;
    hide At, Left, TagAt, TagLength, StringTag;
    PutPiece(s, k, StringTag(p.argument), rest);
    PutPiece(s, n + |p.key|, STRING_IS, StringTag(p.argument) + rest);
    PutPiece(s, n, p.key, STRING_IS + (StringTag(p.argument) + rest));
    PutTag(s, at, OPEN, p.gap, PARAMETER_NAME, p.key + (STRING_IS + (StringTag(p.argument) + rest)));
  }

  lemma PutValue<V>(s: string, from: nat, p: Param<V>, rest: string)
    requires At(s, from, p.raw) && TagAt(s, from + |p.raw|, CLOSE, p.endGap, END_PARAMETER)
    requires Left(s, from + |p.raw| + TagLength(CLOSE, p.endGap, END_PARAMETER), rest)
    ensures Left(s, from, PrintValue(p, rest))
  {
    hide At, Left, TagAt, TagLength;
    PutTag(s, from + |p.raw|, CLOSE, p.endGap, END_PARAMETER, rest);
    PutPiece(s, from, p.raw, CLOSE + (p.endGap + (END_PARAMETER + rest)));
  }

  /** The closing tag of a value within `s[..end]` is one of `s`. */
  lemma FindEndValue(s: string, end: nat, from: nat) returns (endGap: string)
    requires end <= |s| && FindEndParameter(s[..end], from).Some?
    ensures var e := FindEndParameter(s[..end], from).value;
      && from <= e.0 <= e.1 <= end && Spaces(endGap) && TagAt(s, e.0, CLOSE, endGap, END_PARAMETER)
      && e.1 == e.0 + TagLength(CLOSE, endGap, END_PARAMETER)
  {
    EndParameterIs(s[..end], from);
    var e := FindEndParameter(s[..end], from).value;
    DeepSeek.TagExtends(s[..end], s, e.0, CLOSE, END_PARAMETER);
    endGap := FindTag(s, e.0, CLOSE, END_PARAMETER);
  }

  lemma DecodeTells<V>(codec: Codec<V>, isString: bool, raw: string)
    requires Decode(codec, isString, raw).Ok?
    ensures var a := Decode(codec, isString, raw).value;
      && a.Literal? == isString
      && match a
         case Literal(t) => raw == t
         case Decoded(v) => codec.parse(raw) == Some(v) && !codec.isString(v)
  {}

  /** One round of the loop over parameters: the tag, and the end of the value. */
  lemma ParametersRound<V>(codec: Codec<V>, s: string, c: nat, end: nat, arguments: seq<(string, Argument<V>)>, at: nat)
    requires c <= |s| && end <= |s| && Parameters(codec, s, c, end, arguments).Ok? && at == Skip(s, c, end)
    requires Tag(s, at, CLOSE, END_INVOKE).None?
    ensures ParameterTag(s, at).Some? && FindEndParameter(s[..end], ParameterTag(s, at).value.2).Some?
    ensures var t := ParameterTag(s, at).value; var e := FindEndParameter(s[..end], t.2).value; var raw := s[t.2..e.0];
      && !HasKey(arguments, t.0) && !Contains(raw, DSML) && Decode(codec, t.1, raw).Ok? && c < e.1
      && Parameters(codec, s, c, end, arguments) == Parameters(codec, s, e.1, end, arguments + [(t.0, Decode(codec, t.1, raw).value)])
  {
    hide Tag, ParameterTag, FindEndParameter, Decode, Contains, HasKey, Skip;
  }

  /** A parameter as written between its positions. */
  ghost predicate ParamAt<V>(s: string, c: nat, p: Param<V>, next: nat) {
    var at := c + |p.lead|;
    var n := at + TagLength(OPEN, p.gap, PARAMETER_NAME);
    var k := n + |p.key| + |STRING_IS|;
    var from := k + |StringTag(p.argument)|;
    && At(s, c, p.lead) && TagAt(s, at, OPEN, p.gap, PARAMETER_NAME) && At(s, n, p.key) && At(s, n + |p.key|, STRING_IS)
    && At(s, k, StringTag(p.argument)) && At(s, from, p.raw) && TagAt(s, from + |p.raw|, CLOSE, p.endGap, END_PARAMETER)
    && next == from + |p.raw| + TagLength(CLOSE, p.endGap, END_PARAMETER)
  }

  lemma PutParam<V>(s: string, c: nat, p: Param<V>, next: nat, rest: string)
    requires ParamAt(s, c, p, next) && Left(s, next, rest)
    ensures Left(s, c, PrintParam(p, rest))
  {
    hide At, Left, TagAt, TagLength, StringTag;
    var at := c + |p.lead|;
    var from := at + TagLength(OPEN, p.gap, PARAMETER_NAME) + |p.key| + |STRING_IS| + |StringTag(p.argument)|;
    PutValue(s, from, p, rest);
    PutOpenParam(s, at, p, PrintValue(p, rest));
    PutPiece(s, c, p.lead, PrintOpenParam(p, PrintValue(p, rest)));
  }

  lemma SliceAt(s: string, a: nat, b: nat)
    requires a <= b <= |s|
    ensures At(s, a, s[a..b]) && |s[a..b]| == b - a
  {}

  /** One parameter that the loop has read, and what is left to read. */
  lemma FindParam<V>(codec: Codec<V>, s: string, c: nat, end: nat, arguments: seq<(string, Argument<V>)>)
    returns (p: Param<V>, next: nat)
    requires c <= |s| && end <= |s| && Parameters(codec, s, c, end, arguments).Ok?
    requires Tag(s, Skip(s, c, end), CLOSE, END_INVOKE).None?
    ensures c < next <= end && LegalParam(codec, p) && !HasKey(arguments, p.key) && ParamAt(s, c, p, next)
    ensures Parameters(codec, s, c, end, arguments) == Parameters(codec, s, next, end, arguments + [(p.key, p.argument)])
  {
    hide *;
    var at := Skip(s, c, end);
    ParametersRound(codec, s, c, end, arguments, at);
    var lead := FindLead(s, c, end);
    var gap, key, tag := FindOpenParam(s, at);
    var t := ParameterTag(s, at).value;
    var endGap := FindEndValue(s, end, t.2);
    var e := FindEndParameter(s[..end], t.2).value;
    var raw := s[t.2..e.0];
    SliceAt(s, t.2, e.0);
    DecodeTells(codec, t.1, raw);
    p := Param(lead, gap, key, Decode(codec, t.1, raw).value, raw, endGap);
    next := e.1;
    IsLegalParam(codec, p);
    IsParamAt(s, c, p, at, t.2, e.0, next, tag);
  }

  lemma IsLegalParam<V>(codec: Codec<V>, p: Param<V>)
    requires Spaces(p.lead) && Spaces(p.gap) && Spaces(p.endGap) && LegalName(p.key) && !Contains(p.raw, DSML)
    requires match p.argument
             case Literal(t) => p.raw == t
             case Decoded(v) => codec.parse(p.raw) == Some(v) && !codec.isString(v)
    ensures LegalParam(codec, p)
  {}

  lemma IsParamAt<V>(s: string, c: nat, p: Param<V>, at: nat, from: nat, stop: nat, next: nat, tag: string)
    requires At(s, c, p.lead) && at == c + |p.lead| && TagAt(s, at, OPEN, p.gap, PARAMETER_NAME)
    requires var n := at + TagLength(OPEN, p.gap, PARAMETER_NAME); var k := n + |p.key| + |STRING_IS|;
      At(s, n, p.key) && At(s, n + |p.key|, STRING_IS) && At(s, k, tag) && from == k + |tag|
    requires tag == (if p.argument.Literal? then IS_STRING else IS_JSON)
    requires At(s, from, p.raw) && stop == from + |p.raw| && TagAt(s, stop, CLOSE, p.endGap, END_PARAMETER)
    requires next == stop + TagLength(CLOSE, p.endGap, END_PARAMETER)
    ensures ParamAt(s, c, p, next)
  {
    hide At, TagAt, TagLength;
  }

  // ---------------------------------------------------------------- all parameters

  /** A closing invoke tag behind spaces, in front of `rest`. */
  function Closing(tail: string, endGap: string, rest: string): string {
    tail + (CLOSE + (endGap + (END_INVOKE + rest)))
  }

  lemma FindClosing(s: string, c: nat, end: nat) returns (tail: string, endGap: string)
    requires c <= |s| && end <= |s| && Tag(s, Skip(s, c, end), CLOSE, END_INVOKE).Some?
    ensures var e := Tag(s, Skip(s, c, end), CLOSE, END_INVOKE).value;
      Spaces(tail) && Spaces(endGap) && c < e <= |s| && Left(s, c, Closing(tail, endGap, s[e..]))
  {
    var at := Skip(s, c, end);
    tail := FindLead(s, c, end);
    endGap := FindTag(s, at, CLOSE, END_INVOKE);
    var e := Tag(s, at, CLOSE, END_INVOKE).value;
    assert Left(s, e, s[e..]);
    hide At, Left, TagAt, TagLength, Tag, Skip;
    PutTag(s, at, CLOSE, endGap, END_INVOKE, s[e..]);
    PutPiece(s, c, tail, CLOSE + (endGap + (END_INVOKE + s[e..])));
  }

  /** What reading all parameters has gone over. */
  ghost predicate ParamsFound<V>(codec: Codec<V>, s: string, c: nat, arguments: seq<(string, Argument<V>)>,
                                 out: seq<(string, Argument<V>)>, e: nat, ps: seq<Param<V>>, tail: string, endGap: string) {
    && c < e <= |s| && (forall p | p in ps :: LegalParam(codec, p)) && out == arguments + Arguments(ps)
    && Spaces(tail) && Spaces(endGap) && Left(s, c, PrintParams(ps, Closing(tail, endGap, s[e..])))
  }

  lemma {:induction false} FindParams<V>(codec: Codec<V>, s: string, c: nat, end: nat, arguments: seq<(string, Argument<V>)>)
    returns (ps: seq<Param<V>>, tail: string, endGap: string)
    requires c <= |s| && end <= |s| && Parameters(codec, s, c, end, arguments).Ok? && DistinctNames(arguments)
    ensures var r := Parameters(codec, s, c, end, arguments).value;
      ParamsFound(codec, s, c, arguments, r.0, r.1, ps, tail, endGap) && DistinctNames(r.0)
    decreases |s| - c
  {
    var r := Parameters(codec, s, c, end, arguments).value;
    if Tag(s, Skip(s, c, end), CLOSE, END_INVOKE).Some? {
      ParametersClose(codec, s, c, end, arguments);
      hide *;
      tail, endGap := FindClosing(s, c, end);
      ps := [];
      NoParamsFound(codec, s, c, arguments, r.1, tail, endGap);
    } else {
      hide *;
      var p, next := FindParam(codec, s, c, end, arguments);
      AddName(arguments, p.key, p.argument);
      var more;
      more, tail, endGap := FindParams(codec, s, next, end, arguments + [(p.key, p.argument)]);
      ps := [p] + more;
      OneMoreFound(codec, s, c, arguments, r.0, r.1, p, next, more, tail, endGap);
    }
  }

  lemma ParametersClose<V>(codec: Codec<V>, s: string, c: nat, end: nat, arguments: seq<(string, Argument<V>)>)
    requires c <= |s| && end <= |s| && Tag(s, Skip(s, c, end), CLOSE, END_INVOKE).Some?
    ensures Parameters(codec, s, c, end, arguments) == Ok((arguments, Tag(s, Skip(s, c, end), CLOSE, END_INVOKE).value))
  {}

  lemma NoParamsFound<V>(codec: Codec<V>, s: string, c: nat, arguments: seq<(string, Argument<V>)>, e: nat, tail: string, endGap: string)
    requires Spaces(tail) && Spaces(endGap) && c < e <= |s| && Left(s, c, Closing(tail, endGap, s[e..]))
    ensures ParamsFound(codec, s, c, arguments, arguments, e, [], tail, endGap)
  {
    assert arguments + [] == arguments;
    hide Left, Spaces;
  }

  lemma OneMoreFound<V>(codec: Codec<V>, s: string, c: nat, arguments: seq<(string, Argument<V>)>, out: seq<(string, Argument<V>)>,
                        e: nat, p: Param<V>, next: nat, more: seq<Param<V>>, tail: string, endGap: string)
    requires c < next && LegalParam(codec, p) && ParamAt(s, c, p, next)
    requires ParamsFound(codec, s, next, arguments + [(p.key, p.argument)], out, e, more, tail, endGap)
    ensures ParamsFound(codec, s, c, arguments, out, e, [p] + more, tail, endGap)
  {
    hide LegalParam, ParamAt, Left, Spaces, Closing, PrintParam;
    var ps := [p] + more;
    assert ps[0] == p && ps[1..] == more;
    PutParam(s, c, p, next, PrintParams(more, Closing(tail, endGap, s[e..])));
    MoreArguments(ps, arguments);
  }

  // ---------------------------------------------------------------- tags end before the block does

  /** A tag that starts before a `<` ends before it. */
  lemma TagStops(s: string, c: nat, mark: string, gap: string, token: string, i: nat)
    requires TagAt(s, c, mark, gap, token) && Spaces(gap) && Plain(token) && (mark == OPEN || mark == CLOSE)
    requires c < i < |s| && s[i] == '<'
    ensures c + TagLength(mark, gap, token) <= i
  {
    if i < c + |mark| { AtChar(s, c, mark, i - c); }
    else if i < c + |mark| + |gap| { AtChar(s, c + |mark|, gap, i - c - |mark|); }
    else if i < c + TagLength(mark, gap, token) { AtChar(s, c + |mark| + |gap|, token, i - c - |mark| - |gap|); }
  }

  lemma PlainStops(s: string, c: nat, piece: string, i: nat)
    requires At(s, c, piece) && Plain(piece) && c <= i < |s| && s[i] == '<'
    ensures c + |piece| <= i
  {
    if i < c + |piece| { AtChar(s, c, piece, i - c); }
  }

  /** A closing calls tag is no closing invoke tag. */
  lemma CallsIsNotInvoke(s: string, end: nat)
    requires CallsTag(s, end, CLOSE).Some?
    ensures Tag(s, end, CLOSE, END_INVOKE).None?
  {
    var w := CallsTag(s, end, CLOSE).value.1;
    var j := SkipSpace(s, end + |CLOSE|);
    AtChar(s, j, WordTag(w), 0);
    NotAt(s, j, END_INVOKE, 0);
  }

  lemma CloseStops(s: string, at: nat, end: nat)
    requires at <= end && CallsTag(s, end, CLOSE).Some? && Tag(s, at, CLOSE, END_INVOKE).Some?
    ensures Tag(s, at, CLOSE, END_INVOKE).value <= end
  {
    CallsIsNotInvoke(s, end);
    AtChar(s, end, CLOSE, 0);
    hide CallsTag, At, Tag, TagAt, TagLength;
    var gap := FindTag(s, at, CLOSE, END_INVOKE);
    TagStops(s, at, CLOSE, gap, END_INVOKE, end);
  }

  lemma {:induction false} ParametersStop<V>(codec: Codec<V>, s: string, c: nat, end: nat, arguments: seq<(string, Argument<V>)>)
    requires c <= end <= |s| && CallsTag(s, end, CLOSE).Some? && Parameters(codec, s, c, end, arguments).Ok?
    ensures Parameters(codec, s, c, end, arguments).value.1 <= end
    decreases |s| - c
  {
    var lead := FindLead(s, c, end);
    if Tag(s, Skip(s, c, end), CLOSE, END_INVOKE).Some? {
      ParametersClose(codec, s, c, end, arguments);
      hide *;
      CloseStops(s, Skip(s, c, end), end);
    } else {
      hide *;
      var p, next := FindParam(codec, s, c, end, arguments);
      ParametersStop(codec, s, next, end, arguments + [(p.key, p.argument)]);
    }
  }

  // ---------------------------------------------------------------- invokes

  /** What an opening invoke tag has matched. */
  lemma FindOpenInvoke(s: string, at: nat) returns (gap: string, name: string)
    requires InvokeTag(s, at).Some?
    ensures var t := InvokeTag(s, at).value; var n := at + TagLength(OPEN, gap, INVOKE_NAME);
      && name == t.0 && t.1 == n + |name| + |TAG_END| && Spaces(gap) && LegalName(name)
      && TagAt(s, at, OPEN, gap, INVOKE_NAME) && At(s, n, name) && At(s, n + |name|, TAG_END)
  {
    gap := FindTag(s, at, OPEN, INVOKE_NAME);
    var n := Tag(s, at, OPEN, INVOKE_NAME).value;
    name := FindName(s, n, TAG_END);
    hide TagAt, TagLength, LegalName;
  }

  lemma OpenStops(s: string, at: nat, gap: string, name: string, end: nat)
    requires var n := at + TagLength(OPEN, gap, INVOKE_NAME);
      TagAt(s, at, OPEN, gap, INVOKE_NAME) && At(s, n, name) && At(s, n + |name|, TAG_END)
    requires Spaces(gap) && LegalName(name) && at < end < |s| && s[end] == '<'
    ensures at + TagLength(OPEN, gap, INVOKE_NAME) + |name| + |TAG_END| <= end
  {
    var n := at + TagLength(OPEN, gap, INVOKE_NAME);
    NameIsPlain(name);
    assert Plain(INVOKE_NAME) && Plain(TAG_END);
    hide At, TagAt, TagLength, LegalName, Plain;
    TagStops(s, at, OPEN, gap, INVOKE_NAME, end);
    PlainStops(s, n, name, end);
    PlainStops(s, n + |name|, TAG_END, end);
  }

  lemma PutInvoke<V>(s: string, c: nat, i: Invoke<V>, rest: string)
    requires At(s, c, i.lead)
    requires var n := c + |i.lead| + TagLength(OPEN, i.gap, INVOKE_NAME);
      && TagAt(s, c + |i.lead|, OPEN, i.gap, INVOKE_NAME) && At(s, n, i.name) && At(s, n + |i.name|, TAG_END)
      && Left(s, n + |i.name| + |TAG_END|, PrintParams(i.params, PrintCloseInvoke(i, rest)))
    ensures Left(s, c, PrintInvoke(i, rest))
  {
    var at := c + |i.lead|;
    var n := at + TagLength(OPEN, i.gap, INVOKE_NAME);
    var body := PrintParams(i.params, PrintCloseInvoke(i, rest));
    hide At, Left, TagAt, TagLength, PrintParams, PrintCloseInvoke;
    PutOpenInvoke(s, at, i, body);
    PutPiece(s, c, i.lead, PrintOpenInvoke(i, body));
  }

  lemma PutOpenInvoke<V>(s: string, at: nat, i: Invoke<V>, body: string)
    requires var n := at + TagLength(OPEN, i.gap, INVOKE_NAME);
      && TagAt(s, at, OPEN, i.gap, INVOKE_NAME) && At(s, n, i.name) && At(s, n + |i.name|, TAG_END)
      && Left(s, n + |i.name| + |TAG_END|, body)
    ensures Left(s, at, PrintOpenInvoke(i, body))
  {
    var n := at + TagLength(OPEN, i.gap, INVOKE_NAME);
    hide At, Left, TagAt, TagLength;
    PutPiece(s, n + |i.name|, TAG_END, body);
    PutPiece(s, n, i.name, TAG_END + body);
    PutTag(s, at, OPEN, i.gap, INVOKE_NAME, i.name + (TAG_END + body));
  }

  lemma NamesAreDistinct<V>(ps: seq<Param<V>>, out: seq<(string, Argument<V>)>)
    requires DistinctNames(out) && out == [] + Arguments(ps)
    ensures DistinctKeys(ps) && out == Arguments(ps)
  {
    forall i, j | 0 <= i < j < |ps| ensures ps[i].key != ps[j].key { assert out[i].0 == ps[i].key && out[j].0 == ps[j].key; }
  }

  /** One round of the loop over invokes: the tag, the parameters, and the rest. */
  ghost predicate InvokesRead<V>(codec: Codec<V>, tools: set<string>, s: string, c: nat, end: nat,
                                 t: (string, nat), r: (seq<(string, Argument<V>)>, nat)) {
    && c <= |s| && end <= |s| && Invokes(codec, tools, s, c, end).Ok?
    && InvokeTag(s, Skip(s, c, end)) == Some(t) && t.0 in tools
    && t.1 <= |s| && Parameters(codec, s, t.1, end, []) == Ok(r)
    && c < r.1 <= |s| && Invokes(codec, tools, s, r.1, end).Ok?
    && Invokes(codec, tools, s, c, end).value == [Call(t.0, r.0)] + Invokes(codec, tools, s, r.1, end).value
  }

  lemma InvokesStep<V>(codec: Codec<V>, tools: set<string>, s: string, c: nat, end: nat)
    returns (t: (string, nat), r: (seq<(string, Argument<V>)>, nat))
    requires c <= |s| && end <= |s| && Invokes(codec, tools, s, c, end).Ok? && Skip(s, c, end) < end
    ensures InvokesRead(codec, tools, s, c, end, t, r)
  {
    hide InvokeTag, Parameters, Skip;
    t := InvokeTag(s, Skip(s, c, end)).value;
    r := Parameters(codec, s, t.1, end, []).value;
  }

  /** An opening invoke tag behind spaces. */
  ghost predicate HeadAt<V>(s: string, c: nat, i: Invoke<V>, from: nat) {
    var at := c + |i.lead|;
    var n := at + TagLength(OPEN, i.gap, INVOKE_NAME);
    && Spaces(i.lead) && Spaces(i.gap) && LegalName(i.name) && At(s, c, i.lead)
    && TagAt(s, at, OPEN, i.gap, INVOKE_NAME) && At(s, n, i.name) && At(s, n + |i.name|, TAG_END)
    && from == n + |i.name| + |TAG_END|
  }

  lemma FindHead<V>(s: string, c: nat, end: nat, t: (string, nat)) returns (i: Invoke<V>)
    requires c <= end < |s| && s[end] == '<' && Skip(s, c, end) < end && InvokeTag(s, Skip(s, c, end)) == Some(t)
    ensures HeadAt(s, c, i, t.1) && i.name == t.0 && t.1 <= end
  {
    hide *;
    var at := Skip(s, c, end);
    var lead := FindLead(s, c, end);
    var gap, name := FindOpenInvoke(s, at);
    OpenStops(s, at, gap, name, end);
    i := Invoke(lead, gap, name, [], "", "");
    IsHeadAt(s, c, i, at, t.1);
  }

  lemma IsHeadAt<V>(s: string, c: nat, i: Invoke<V>, at: nat, from: nat)
    requires Spaces(i.lead) && Spaces(i.gap) && LegalName(i.name) && At(s, c, i.lead) && at == c + |i.lead|
    requires var n := at + TagLength(OPEN, i.gap, INVOKE_NAME);
      && TagAt(s, at, OPEN, i.gap, INVOKE_NAME) && At(s, n, i.name) && At(s, n + |i.name|, TAG_END)
      && from == n + |i.name| + |TAG_END|
    ensures HeadAt(s, c, i, from)
  {
    hide Spaces, LegalName, At, TagAt, TagLength;
  }

  /** One invoke that the loop has read. */
  ghost predicate InvokeFound<V>(codec: Codec<V>, tools: set<string>, s: string, c: nat, i: Invoke<V>, next: nat) {
    c < next <= |s| && LegalInvoke(codec, tools, i) && Left(s, c, PrintInvoke(i, s[next..]))
  }

  lemma FindInvoke<V>(codec: Codec<V>, tools: set<string>, s: string, c: nat, end: nat) returns (i: Invoke<V>, next: nat)
    requires c <= end <= |s| && CallsTag(s, end, CLOSE).Some? && Invokes(codec, tools, s, c, end).Ok? && Skip(s, c, end) < end
    ensures InvokeFound(codec, tools, s, c, i, next) && next <= end && Invokes(codec, tools, s, next, end).Ok?
    ensures Invokes(codec, tools, s, c, end).value
         == [Call(i.name, Arguments(i.params))] + Invokes(codec, tools, s, next, end).value
  {
    AtEnd(s, end);
    var t, r := InvokesStep(codec, tools, s, c, end);
    hide Invokes, Parameters, InvokeTag, CallsTag, Skip, Arguments;
    var head := FindHead<V>(s, c, end, t);
    i := FindBody(codec, tools, s, c, end, head, t, r);
    next := r.1;
  }

  lemma FindBody<V>(codec: Codec<V>, tools: set<string>, s: string, c: nat, end: nat, head: Invoke<V>,
                    t: (string, nat), r: (seq<(string, Argument<V>)>, nat)) returns (i: Invoke<V>)
    requires t.1 <= end <= |s| && CallsTag(s, end, CLOSE).Some? && HeadAt(s, c, head, t.1) && head.name in tools
    requires Parameters(codec, s, t.1, end, []) == Ok(r)
    ensures InvokeFound(codec, tools, s, c, i, r.1) && r.1 <= end && i.name == head.name && r.0 == Arguments(i.params)
  {
    assert DistinctNames<V>([]);
    hide *;
    ParametersStop(codec, s, t.1, end, []);
    var ps, tail, endGap := FindParams(codec, s, t.1, end, []);
    i := head.(params := ps, tail := tail, endGap := endGap);
    IsInvokeFound(codec, tools, s, c, head, i, t.1, r.0, r.1);
  }

  lemma AtEnd(s: string, end: nat)
    requires CallsTag(s, end, CLOSE).Some?
    ensures end < |s| && s[end] == '<'
  {
    AtChar(s, end, CLOSE, 0);
  }

  lemma IsInvokeFound<V>(codec: Codec<V>, tools: set<string>, s: string, c: nat, head: Invoke<V>, i: Invoke<V>, from: nat,
                         out: seq<(string, Argument<V>)>, next: nat)
    requires HeadAt(s, c, head, from) && i == head.(params := i.params, tail := i.tail, endGap := i.endGap) && i.name in tools
    requires ParamsFound(codec, s, from, [], out, next, i.params, i.tail, i.endGap) && DistinctNames(out)
    ensures InvokeFound(codec, tools, s, c, i, next) && out == Arguments(i.params)
  {
    hide At, TagAt, TagLength, Left, LegalParam, PrintParams, PrintInvoke, DistinctNames, DistinctKeys, Spaces, LegalName;
    NamesAreDistinct(i.params, out);
    assert Closing(i.tail, i.endGap, s[next..]) == PrintCloseInvoke(i, s[next..]);
    PutInvoke(s, c, i, s[next..]);
  }

  /** What reading all invokes has gone over. */
  ghost predicate InvokesFound<V>(codec: Codec<V>, tools: set<string>, s: string, c: nat, end: nat,
                                  ivs: seq<Invoke<V>>, tail: string, calls: seq<Call<V>>) {
    && end <= |s| && (forall i | i in ivs :: LegalInvoke(codec, tools, i)) && Spaces(tail)
    && Left(s, c, PrintInvokes(ivs, tail + s[end..])) && calls == DsmlProofs.CallsOf(ivs)
  }

  lemma {:induction false} FindInvokes<V>(codec: Codec<V>, tools: set<string>, s: string, c: nat, end: nat)
    returns (ivs: seq<Invoke<V>>, tail: string)
    requires c <= end <= |s| && CallsTag(s, end, CLOSE).Some? && Invokes(codec, tools, s, c, end).Ok?
    ensures InvokesFound(codec, tools, s, c, end, ivs, tail, Invokes(codec, tools, s, c, end).value)
    decreases |s| - c
  {
    if Skip(s, c, end) >= end {
      tail := FindLead(s, c, end);
      ivs := [];
      assert Left(s, end, s[end..]);
      hide Left, At, Spaces, CallsTag;
      PutPiece(s, c, tail, s[end..]);
    } else {
      hide *;
      var i, next := FindInvoke(codec, tools, s, c, end);
      NextDecreases(codec, tools, s, c, i, next);
      var more;
      more, tail := FindInvokes(codec, tools, s, next, end);
      ivs := [i] + more;
      OneMoreInvoke(codec, tools, s, c, end, i, next, more, tail, Invokes(codec, tools, s, next, end).value);
    }
  }

  lemma NextDecreases<V>(codec: Codec<V>, tools: set<string>, s: string, c: nat, i: Invoke<V>, next: nat)
    requires InvokeFound(codec, tools, s, c, i, next)
    ensures c < next <= |s|
  {}

  lemma OneMoreInvoke<V>(codec: Codec<V>, tools: set<string>, s: string, c: nat, end: nat, i: Invoke<V>, next: nat,
                         more: seq<Invoke<V>>, tail: string, calls: seq<Call<V>>)
    requires InvokeFound(codec, tools, s, c, i, next) && InvokesFound(codec, tools, s, next, end, more, tail, calls)
    ensures InvokesFound(codec, tools, s, c, end, [i] + more, tail, [Call(i.name, Arguments(i.params))] + calls)
  {
    hide LegalInvoke, PrintInvoke, Spaces;
    var ivs := [i] + more;
    assert ivs[0] == i && ivs[1..] == more;
  }

  // ---------------------------------------------------------------- whole blocks

  lemma FindCallsTag(s: string, c: nat, mark: string) returns (gap: string)
    requires CallsTag(s, c, mark).Some?
    ensures var t := CallsTag(s, c, mark).value;
      Spaces(gap) && TagAt(s, c, mark, gap, WordTag(t.1)) && t.0 == c + TagLength(mark, gap, WordTag(t.1))
  {
    gap := FindTag(s, c, mark, WordTag(CallsTag(s, c, mark).value.1));
  }

  /** The block ends with its first closing tag. */
  predicate Complete(s: string) {
    FindEndCalls(s, 0).Some? && FindEndCalls(s, 0).value.1 == |s|
  }

  lemma ValidateParts<V>(codec: Codec<V>, tools: set<string>, s: string) returns (from: nat, end: nat, w: Word)
    requires Complete(s) && Validate(codec, tools, s).Ok?
    ensures end <= |s| && CallsTag(s, end, CLOSE) == Some((|s|, w)) && CallsTag(s, 0, OPEN) == Some((from, w)) && from <= |s|
    ensures Invokes(codec, tools, s, from, end) == Validate(codec, tools, s) && Validate(codec, tools, s).value != []
  {
    hide CallsTag, Invokes;
    from := CallsTag(s, 0, OPEN).value.0;
    w := CallsTag(s, 0, OPEN).value.1;
    end := FindEndCalls(s, 0).value.0;
  }

  lemma OpenBeforeEnd(s: string, gap: string, w: Word, end: nat)
    requires TagAt(s, 0, OPEN, gap, WordTag(w)) && Spaces(gap) && CallsTag(s, end, CLOSE).Some?
    ensures TagLength(OPEN, gap, WordTag(w)) <= end
  {
    AtEnd(s, end);
    WordIsPlain(w);
    if end == 0 {
      OpenIsNotClose(s, 0);
    } else {
      TagStops(s, 0, OPEN, gap, WordTag(w), end);
    }
  }

  lemma PutBlock<V>(s: string, b: Block<V>, from: nat, end: nat)
    requires TagAt(s, 0, OPEN, b.gap, WordTag(b.word)) && from == TagLength(OPEN, b.gap, WordTag(b.word))
    requires end <= |s| && Left(s, from, PrintInvokes(b.invokes, b.tail + s[end..]))
    requires TagAt(s, end, CLOSE, b.endGap, WordTag(b.word)) && |s| == end + TagLength(CLOSE, b.endGap, WordTag(b.word))
    ensures PrintBlock(b) == s
  {
    assert Left(s, |s|, "");
    PutTag(s, end, CLOSE, b.endGap, WordTag(b.word), "");
    assert s[end..] == PrintEnd(b);
    hide TagAt, TagLength, PrintInvokes, PrintEnd;
    PutTag(s, 0, OPEN, b.gap, WordTag(b.word), PrintInvokes(b.invokes, b.tail + PrintEnd(b)));
    assert s[0..] == s;
  }

  /** What validation accepts is the printed form of the calls it answers. */
  lemma FindBlock<V>(codec: Codec<V>, tools: set<string>, s: string) returns (b: Block<V>)
    requires Complete(s) && Validate(codec, tools, s).Ok?
    ensures LegalBlock(codec, tools, b) && PrintBlock(b) == s && Validate(codec, tools, s) == Ok(DsmlProofs.CallsOf(b.invokes))
  {
    hide *;
    var from, end, w := ValidateParts(codec, tools, s);
    var gap := FindCallsTag(s, 0, OPEN);
    var endGap := FindCallsTag(s, end, CLOSE);
    OpenBeforeEnd(s, gap, w, end);
    var ivs, tail := FindInvokes(codec, tools, s, from, end);
    b := Block(w, gap, ivs, tail, endGap);
    IsBlock(codec, tools, s, b, from, end, Validate(codec, tools, s).value);
  }

  lemma IsBlock<V>(codec: Codec<V>, tools: set<string>, s: string, b: Block<V>, from: nat, end: nat, calls: seq<Call<V>>)
    requires TagAt(s, 0, OPEN, b.gap, WordTag(b.word)) && from == 0 + TagLength(OPEN, b.gap, WordTag(b.word)) && Spaces(b.gap)
    requires TagAt(s, end, CLOSE, b.endGap, WordTag(b.word)) && |s| == end + TagLength(CLOSE, b.endGap, WordTag(b.word))
    requires Spaces(b.endGap) && InvokesFound(codec, tools, s, from, end, b.invokes, b.tail, calls) && calls != []
    ensures LegalBlock(codec, tools, b) && PrintBlock(b) == s && calls == DsmlProofs.CallsOf(b.invokes)
  {
    hide TagAt, TagLength, LegalInvoke, PrintInvokes, PrintBlock, Spaces, Left;
    PutBlock(s, b, from, end);
  }

  lemma PrintedCompletes<V>(codec: Codec<V>, tools: set<string>, b: Block<V>)
    requires LegalBlock(codec, tools, b)
    ensures Complete(PrintBlock(b)) && OPEN <= PrintBlock(b)
  {
    var s := PrintBlock(b);
    var from := TagLength(OPEN, b.gap, WordTag(b.word));
    var end := InvokesEnd(from, b.invokes) + |b.tail|;
    var next := end + TagLength(CLOSE, b.endGap, WordTag(b.word));
    assert s[0..] == s;
    hide Left, PrintBlock, PrintInvokes, InvokesEnd, CallsTag, TagAt, NoEndCalls, FindEndCalls;
    TakeBlock(s, b, from, end, next);
    TakeBlockEnd(s, b, from, end, next);
    ReadStart(s, b, from);
    ReadEnd(s, b, end, next);
    ReadInvokes(codec, tools, s, from, end, b.invokes, b.tail, PrintEnd(b));
    Joins(s, 0, from, end);
    FirstEndCalls(s, 0, end, next, b.word);
  }

  lemma TagRestricts(t: string, n: nat, k: nat, mark: string, token: string)
    requires Tag(t, k, mark, token).Some? && Tag(t, k, mark, token).value <= n <= |t| && token != ""
    ensures Tag(t[..n], k, mark, token) == Tag(t, k, mark, token)
  {
    var s := t[..n];
    DeepSeek.AtExtends(s, t, k, mark);
    var j := SkipSpace(t, k + |mark|);
    SkipSpaceUnique(s, k + |mark|, j);
    DeepSeek.AtExtends(s, t, j, token);
  }

  lemma CallsTagRestricts(t: string, n: nat, i: nat)
    requires CallsTag(t, i, CLOSE).Some? && CallsTag(t, i, CLOSE).value.0 <= n <= |t|
    ensures CallsTag(t[..n], i, CLOSE) == CallsTag(t, i, CLOSE)
  {
    var w := CallsTag(t, i, CLOSE).value.1;
    TagRestricts(t, n, i, CLOSE, WordTag(w));
    hide Tag;
    if w.ToolCalls? && Tag(t[..n], i, CLOSE, WordTag(Calls)).Some? {
      DeepSeek.TagExtends(t[..n], t, i, CLOSE, WordTag(Calls));
    }
  }

  /** A text that is cut behind its first closing tag is complete. */
  lemma CutCompletes(t: string)
    requires FindEndCalls(t, 0).Some?
    ensures Complete(t[..FindEndCalls(t, 0).value.1])
  {
    var i, n := FindEndCalls(t, 0).value.0, FindEndCalls(t, 0).value.1;
    var s := t[..n];
    CallsTagRestricts(t, n, i);
    forall k | 0 <= k < i ensures CallsTag(s, k, CLOSE).None? {
      if CallsTag(s, k, CLOSE).Some? { DeepSeek.CallsTagExtends(s, t, k); }
    }
    hide CallsTag;
    DeepSeek.FirstEndCallsAt(s, 0, i);
  }

  lemma TakeBlockEnd<V>(s: string, b: Block<V>, from: nat, end: nat, next: nat)
    requires BlockSpots(b, from, end, next) && Left(s, from, PrintInvokes(b.invokes, b.tail + PrintEnd(b)))
    ensures next == |s|
  {
    hide Left, PrintInvokes, InvokesEnd, TagLength, TagAt;
    TakeInvokes(s, from, b.invokes, b.tail, PrintEnd(b));
    TakeTag(s, end, CLOSE, b.endGap, WordTag(b.word), "");
    NothingLeft(s, next);
  }

  lemma NothingLeft(s: string, c: nat)
    requires Left(s, c, "")
    ensures c == |s|
  {}

  /**
   Validation accepts exactly the printed blocks: nonempty lists of calls to declared tools with
   distinct legal parameters, under one word from the opening to the first closing tag.
   */
  lemma ValidExactly<V>(codec: Codec<V>, tools: set<string>, s: string, calls: seq<Call<V>>)
    ensures (Complete(s) && Validate(codec, tools, s) == Ok(calls)) <==>
      exists b: Block<V> :: LegalBlock(codec, tools, b) && PrintBlock(b) == s && DsmlProofs.CallsOf(b.invokes) == calls
  {
    hide Complete, Validate, LegalBlock, PrintBlock, DsmlProofs.CallsOf;
    if Complete(s) && Validate(codec, tools, s) == Ok(calls) {
      var b := FindBlock(codec, tools, s);
    }
    if exists b: Block<V> :: LegalBlock(codec, tools, b) && PrintBlock(b) == s && DsmlProofs.CallsOf(b.invokes) == calls {
      var b: Block<V> :| LegalBlock(codec, tools, b) && PrintBlock(b) == s && DsmlProofs.CallsOf(b.invokes) == calls;
      PrintedCompletes(codec, tools, b);
      ValidatePrinted(codec, tools, b);
    }
  }
}
