/**
 DSML tool-call blocks (gateway/deepseek.py): the tag patterns and `_validate_block`. JSON is a
 parameter: a codec that decodes a text to a value, and says which values are strings.
 */
module Dsml {
  import opened Wrappers
  import opened Text

  const DSML := "\U{FF5C}DSML\U{FF5C}"
  const OPEN := "<\U{FF5C}DSML\U{FF5C}"
  const CLOSE := "</\U{FF5C}DSML\U{FF5C}"

  const INVOKE_NAME := "invoke name=\""
  const PARAMETER_NAME := "parameter name=\""
  const STRING_IS := "\" string=\""
  const IS_STRING := "true\">"
  const IS_JSON := "false\">"
  const TAG_END := "\">"
  const END_INVOKE := "invoke>"
  const END_PARAMETER := "parameter>"

  datatype Codec<!V> = Codec(parse: string -> Option<V>, isString: V -> bool)

  /** The value of a parameter: a literal string, or decoded JSON. */
  datatype Argument<V> = Literal(text: string) | Decoded(value: V)

  datatype Call<V> = Call(name: string, arguments: seq<(string, Argument<V>)>)

  // ---------------------------------------------------------------- patterns

  /** The end of `mark`, spaces, `rest` at `i`. */
  function Tag(s: string, i: nat, mark: string, rest: string): (r: Option<nat>)
    ensures r.Some? ==> i + |mark| + |rest| <= r.value <= |s|
  {
    if !At(s, i, mark) then None else
      var j := SkipSpace(s, i + |mark|);
      if At(s, j, rest) then Some(j + |rest|) else None
  }

  /** The words that a calls block may be called by. */
  datatype Word = Calls | ToolCalls

  function WordTag(w: Word): string {
    if w.Calls? then "calls>" else "tool_calls>"
  }

  /** `mark`, spaces, and `calls>` or `tool_calls>` at `i`. */
  function CallsTag(s: string, i: nat, mark: string): (r: Option<(nat, Word)>)
    ensures r.Some? ==> i + |mark| < r.value.0 <= |s|
  {
    match Tag(s, i, mark, WordTag(Calls))
    case Some(e) => Some((e, Calls))
    case None =>
      match Tag(s, i, mark, WordTag(ToolCalls))
      case Some(e) => Some((e, ToolCalls))
      case None => None
  }

  predicate NameChar(c: char) {
    c != '"' && c != '<' && c != '>'
  }

  function NameEnd(s: string, i: nat): (r: nat)
    requires i <= |s|
    ensures i <= r <= |s| && (forall k | i <= k < r :: NameChar(s[k])) && (r < |s| ==> !NameChar(s[r]))
    decreases |s| - i
  {
    if i < |s| && NameChar(s[i]) then NameEnd(s, i + 1) else i
  }

  /** A nonempty name at `i`, followed by `rest`: its end, and the end of `rest`. */
  function Name(s: string, i: nat, rest: string): (r: Option<(nat, nat)>)
    ensures r.Some? ==> i < r.value.0 && r.value.0 + |rest| == r.value.1 <= |s|
  {
    if i > |s| then None else
      var e := NameEnd(s, i);
      if i < e && At(s, e, rest) then Some((e, e + |rest|)) else None
  }

  /** An opening invoke tag at `i`: its name and its end. */
  function InvokeTag(s: string, i: nat): (r: Option<(string, nat)>)
    ensures r.Some? ==> i < r.value.1 <= |s|
  {
    match Tag(s, i, OPEN, INVOKE_NAME)
    case None => None
    case Some(n) =>
      match Name(s, n, TAG_END)
      case None => None
      case Some((e, end)) => Some((s[n..e], end))
  }

  /** An opening parameter tag at `i`: its name, whether it is a string, and its end. */
  function ParameterTag(s: string, i: nat): (r: Option<(string, bool, nat)>)
    ensures r.Some? ==> i < r.value.2 <= |s|
  {
    match Tag(s, i, OPEN, PARAMETER_NAME)
    case None => None
    case Some(n) =>
      match Name(s, n, STRING_IS)
      case None => None
      case Some((e, k)) =>
        if At(s, k, IS_STRING) then Some((s[n..e], true, k + |IS_STRING|))
        else if At(s, k, IS_JSON) then Some((s[n..e], false, k + |IS_JSON|))
        else None
  }

  /** The first closing calls tag from `i` on: its start, its end and its word. */
  function FindEndCalls(s: string, i: nat): (r: Option<(nat, nat, Word)>)
    ensures r.Some? ==> i <= r.value.0 < r.value.1 <= |s| && CallsTag(s, r.value.0, CLOSE) == Some((r.value.1, r.value.2))
    ensures r.Some? ==> forall k | i <= k < r.value.0 :: CallsTag(s, k, CLOSE).None?
    ensures r.None? ==> forall k | i <= k :: CallsTag(s, k, CLOSE).None?
    decreases |s| - i
  {
    if i >= |s| then None
    else match CallsTag(s, i, CLOSE)
         case Some((e, w)) => Some((i, e, w))
         case None => FindEndCalls(s, i + 1)
  }

  /** The first closing parameter tag of `s` from `i` on. */
  function FindEndParameter(s: string, i: nat): (r: Option<(nat, nat)>)
    ensures r.Some? ==> i <= r.value.0 < r.value.1 <= |s|
    decreases |s| - i
  {
    if i >= |s| then None
    else match Tag(s, i, CLOSE, END_PARAMETER)
         case Some(e) => Some((i, e))
         case None => FindEndParameter(s, i + 1)
  }

  /** `pat` occurs in `s`. */
  predicate Contains(s: string, pat: string) {
    exists i | 0 <= i <= |s| :: At(s, i, pat)
  }

  // ---------------------------------------------------------------- validation

  /** Where the spaces of `block[cursor..end]` stop; past the end nothing is skipped. */
  function Skip(block: string, cursor: nat, end: nat): (r: nat)
    requires cursor <= |block| && end <= |block|
    ensures cursor <= r <= |block|
  {
    if cursor >= end then cursor else SkipSpace(block[..end], cursor)
  }

  predicate HasKey<V>(arguments: seq<(string, Argument<V>)>, key: string) {
    exists i | 0 <= i < |arguments| :: arguments[i].0 == key
  }

  /** The value between two parameter tags; JSON strings must be written as string parameters. */
  function Decode<V>(codec: Codec<V>, isString: bool, value: string): Result<Argument<V>> {
    if isString then Ok(Literal(value))
    else match codec.parse(value)
         case None => Fail
         case Some(v) => if codec.isString(v) then Fail else Ok(Decoded(v))
  }

  /** The parameters of one invoke from `cursor` to its closing tag, and where that tag ends. */
  function Parameters<V(==)>(codec: Codec<V>, block: string, cursor: nat, end: nat, arguments: seq<(string, Argument<V>)>)
    : (r: Result<(seq<(string, Argument<V>)>, nat)>)
    requires cursor <= |block| && end <= |block|
    ensures r.Ok? ==> cursor < r.value.1 <= |block|
    decreases |block| - cursor
  {
    var at := Skip(block, cursor, end);
    match Tag(block, at, CLOSE, END_INVOKE)
    case Some(e) => Ok((arguments, e))
    case None =>
      match ParameterTag(block, at)
      case None => Fail
      case Some((key, isString, from)) =>
        match FindEndParameter(block[..end], from)
        case None => Fail
        case Some((stop, next)) =>
          var value := block[from..stop];
          if HasKey(arguments, key) || Contains(value, DSML) then Fail else
            match Decode(codec, isString, value)
            case Fail => Fail
            case Ok(a) => Parameters(codec, block, next, end, arguments + [(key, a)])
  }

  /** The invokes of a block from `cursor` on. */
  function Invokes<V(==)>(codec: Codec<V>, tools: set<string>, block: string, cursor: nat, end: nat): (r: Result<seq<Call<V>>>)
    requires cursor <= |block| && end <= |block|
    decreases |block| - cursor
  {
    if Skip(block, cursor, end) >= end then Ok([]) else
      match InvokeTag(block, Skip(block, cursor, end))
      case None => Fail
      case Some((name, from)) =>
        if name !in tools then Fail else
          match Parameters(codec, block, from, end, [])
          case Fail => Fail
          case Ok((arguments, next)) =>
            match Invokes(codec, tools, block, next, end)
            case Fail => Fail
            case Ok(rest) => Ok([Call(name, arguments)] + rest)
  }

  /** `_validate_block`: the calls of a block, or failure. */
  function Validate<V(==)>(codec: Codec<V>, tools: set<string>, block: string): Result<seq<Call<V>>> {
    if tools == {} then Fail else
      match (CallsTag(block, 0, OPEN), FindEndCalls(block, 0))
      case (Some((from, word)), Some((end, _, closing))) =>
        if word != closing then Fail else
          var calls := Invokes(codec, tools, block, from, end);
          if calls == Ok([]) then Fail else calls
      case _ => Fail
  }
}
