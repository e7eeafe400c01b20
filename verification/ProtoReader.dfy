/** The reader of gateway/model_config.py as it runs: one position over the tokens, shared by its nested routines. */
module ProtoReader {
  import opened Wrappers
  import opened ProtoString
  import opened ProtoText

  /** Below the top level fields leave the identity alone. */
  lemma {:induction false} NestedFieldsSayNothing(utf8: Utf8Decoder, ts: seq<Token>, end: string, depth: nat, id: Identity)
    requires depth > 0
    ensures Fields(utf8, ts, end, depth, id) ==
      var r := Fields(utf8, ts, end, depth, NOBODY);
      if r.Fail? then Fail else Ok((id, r.value.1))
    decreases |ts|
  {
    if ts != [] && !(end != "" && Peek(ts) == end) && ts[0].kind.Ident? {
      var next := Peek(ts[1..]);
      if next == ":" || next == "[" || OpensMessage(next) {
        var v := Value(utf8, if next == ":" then ts[2..] else ts[1..], depth, next == "[");
        if v.Ok? { NestedFieldsSayNothing(utf8, SkipSeparator(v.value.1), end, depth, id); }
      }
    }
  }

  class Reader {
    const utf8: Utf8Decoder
    const tokens: seq<Token>
    var position: nat
    var identity: Identity

    constructor (utf8: Utf8Decoder, tokens: seq<Token>)
      ensures this.utf8 == utf8 && this.tokens == tokens && position == 0 && identity == NOBODY
    {
      this.utf8, this.tokens, position, identity := utf8, tokens, 0, NOBODY;
    }

    /** The tokens from the position on. */
    function Ahead(): seq<Token>
      requires position <= |tokens|
      reads this
    {
      tokens[position..]
    }

    method Step()
      requires position < |tokens|
      modifies this`position
      ensures position == old(position) + 1 && Ahead() == old(Ahead())[1..]
    {
      position := position + 1;
    }

    /** The loop that joins adjacent literals. */
    method ReadString() returns (r: Result<string>)
      requires position < |tokens| && tokens[position].kind.Str?
      modifies this`position
      ensures position <= |tokens|
      ensures match StringValue(utf8, old(Ahead()))
              case Fail => r.Fail?
              case Ok((s, rest)) => r.Ok? && Some(r.value) == s && Ahead() == rest && position > old(position)
    {
      hide Literal;
      var bytes := [];
      ghost var joined := Joined(Ahead());
      BeforeNone(joined);
      while position < |tokens| && tokens[position].kind.Str?
        invariant old(position) <= position <= |tokens|
        invariant position > old(position) || tokens[position].kind.Str?
        invariant joined == Before(bytes, Joined(Ahead()))
        decreases |tokens| - position
      {
        var more := Literal(tokens[position]);
        JoinedStep(Ahead(), bytes);
        if more.None? { return Fail; }
        bytes := bytes + more.value;
        Step();
      }
      BeforeAll(bytes, Ahead());
      var text := utf8(bytes);
      if text.None? { return Fail; }
      return Ok(text.value);
    }

    /** `value`. */
    method ReadValue(depth: nat, messages: bool) returns (r: Result<Option<string>>)
      requires position <= |tokens|
      modifies this`position, this`identity
      ensures position <= |tokens|
      ensures match Value(utf8, old(Ahead()), depth, messages)
              case Fail => r.Fail?
              case Ok((parsed, rest)) => r == Ok(parsed) && Ahead() == rest && identity == old(identity)
      decreases |tokens| - position, 1
    {
      hide Joined, Literal, Fields, Items;
      if depth > DEPTH_LIMIT || position == |tokens| { return Fail; }
      var token := tokens[position];
      if OpensMessage(token.text) {
        ghost var was := identity;
        Step();
        NestedFieldsSayNothing(utf8, Ahead(), if token.text == "{" then "}" else ">", depth + 1, identity);
        var ok := ReadFields(if token.text == "{" then "}" else ">", depth + 1);
        return if ok then Ok(None) else Fail;
      } else if token.text == "[" {
        Step();
        if Peek(tokens[position..]) == "]" {
          Step();
          return Ok(None);
        }
        r := ReadItems(depth, messages);
      } else if token.kind.Str? {
        var text := ReadString();
        return if text.Ok? then Ok(Some(text.value)) else Fail;
      } else if token.kind.Ident? || token.kind.Num? {
        Step();
        return Ok(None);
      } else {
        return Fail;
      }
    }

    /** The loop over the elements of a list. */
    method ReadItems(depth: nat, messages: bool) returns (r: Result<Option<string>>)
      requires position <= |tokens|
      modifies this`position, this`identity
      ensures position <= |tokens|
      ensures match Items(utf8, old(Ahead()), depth, messages)
              case Fail => r.Fail?
              case Ok((parsed, rest)) => r == Ok(parsed) && Ahead() == rest && identity == old(identity)
      decreases |tokens| - position, 2
    {
      hide Value;
      ghost var whole := Items(utf8, Ahead(), depth, messages);
      while true
        invariant old(position) <= position <= |tokens| && identity == old(identity)
        invariant whole == Items(utf8, Ahead(), depth, messages)
        decreases |tokens| - position
      {
        if messages && !OpensMessage(Peek(tokens[position..])) { return Fail; }
        ghost var before := |tokens| - position;
        var item := ReadValue(depth + 1, false);
        if item.Fail? { return Fail; }
        assert |Ahead()| < before;
        if Peek(tokens[position..]) != "," { break; }
        Step();
        if Peek(tokens[position..]) == "]" {
          Step();
          return Ok(None);
        }
      }
      if Peek(tokens[position..]) != "]" { return Fail; }
      Step();
      return Ok(None);
    }

    /** `fields`. */
    method ReadFields(end: string, depth: nat) returns (ok: bool)
      requires position <= |tokens|
      modifies this`position, this`identity
      ensures position <= |tokens|
      ensures match Fields(utf8, old(Ahead()), end, depth, old(identity))
              case Fail => !ok
              case Ok((id, rest)) => ok && Ahead() == rest && identity == id
      decreases |tokens| - position, 3
    {
      hide Value, Noted;
      ghost var whole := Fields(utf8, Ahead(), end, depth, identity);
      while position < |tokens| && !(end != "" && tokens[position].text == end)
        invariant old(position) <= position <= |tokens|
        invariant whole == Fields(utf8, Ahead(), end, depth, identity)
        decreases |tokens| - position
      {
        ok := ReadField(depth, end);
        if !ok { return false; }
      }
      if end != "" {
        if position == |tokens| { return false; }
        Step();
      }
      return true;
    }

    /** The body of the loop in `fields`: one field, its effect on the identity, and a separator. */
    method ReadField(depth: nat, end: string) returns (ok: bool)
      requires position < |tokens| && !(end != "" && tokens[position].text == end)
      modifies this`position, this`identity
      ensures position <= |tokens| && (ok ==> position > old(position))
      ensures Fields(utf8, old(Ahead()), end, depth, old(identity)) ==
        if ok then Fields(utf8, Ahead(), end, depth, identity) else Fail
      decreases |tokens| - position, 0
    {
      hide Value, Noted;
      ghost var start := Ahead();
      if !tokens[position].kind.Ident? { return false; }
      var name := tokens[position].text;
      Step();
      var messages := false;
      var next := Peek(tokens[position..]);
      assert start[1..] == Ahead();
      if next == ":" {
        Step();
        assert start[2..] == Ahead();
      } else if next == "[" {
        messages := true;
      } else if !OpensMessage(next) {
        return false;
      }
      var parsed := ReadValue(depth, messages);
      if parsed.Fail? { return false; }
      var noted := Noted(identity, depth, name, parsed.value);
      if noted.None? { return false; }
      identity := noted.value;
      next := Peek(tokens[position..]);
      if next == "," || next == ";" { Step(); }
      return true;
    }
  }

  /** Bytes already joined, in front of what the remaining literals hold. */
  function Before(bytes: Bytes, rest: Result<(Bytes, seq<Token>)>): Result<(Bytes, seq<Token>)> {
    if rest.Fail? then Fail else Ok((bytes + rest.value.0, rest.value.1))
  }

  lemma BeforeNone(r: Result<(Bytes, seq<Token>)>)
    ensures Before([], r) == r
  {
    if r.Ok? { assert [] + r.value.0 == r.value.0; }
  }

  lemma BeforeAll(bytes: Bytes, ts: seq<Token>)
    requires ts == [] || !ts[0].kind.Str?
    ensures Before(bytes, Joined(ts)) == Ok((bytes, ts))
  {
    assert bytes + [] == bytes;
  }

  lemma BeforeTwice(a: Bytes, b: Bytes, r: Result<(Bytes, seq<Token>)>)
    ensures Before(a, Before(b, r)) == Before(a + b, r)
  {
    if r.Ok? { assert a + (b + r.value.0) == a + b + r.value.0; }
  }

  lemma JoinedStep(ts: seq<Token>, bytes: Bytes)
    requires ts != [] && ts[0].kind.Str?
    ensures Before(bytes, Joined(ts)) ==
      match Literal(ts[0]) case None => Fail case Some(more) => Before(bytes + more, Joined(ts[1..]))
  {
    if Literal(ts[0]).Some? {
      assert Joined(ts) == Before(Literal(ts[0]).value, Joined(ts[1..]));
      BeforeTwice(bytes, Literal(ts[0]).value, Joined(ts[1..]));
    }
  }

  /** `read_model_config` on the tokens. */
  method ReadConfig(utf8: Utf8Decoder, tokens: seq<Token>) returns (r: Result<Identity>)
    ensures r == Read(utf8, tokens)
  {
    var reader := new Reader(utf8, tokens);
    assert reader.Ahead() == tokens;
    var ok := reader.ReadFields("", 0);
    return if ok then Ok(reader.identity) else Fail;
  }
}
