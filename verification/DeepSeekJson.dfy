/**
 The structured-output parser of gateway/deepseek.py. JSON is data, service markers in its strings
 included; outside strings only the end-of-sentence marker may follow a `<`.
 */
module DeepSeekJson {
  import opened Wrappers
  import opened Text
  import DeepSeek

  const EOS := DeepSeek.EOS

  datatype Scanner = Scanner(pending: string, content: string, inString: bool, escaped: bool, stopped: bool)

  const START := Scanner("", "", false, false, false)

  /** The scanner after one character of JSON. */
  function Consume(s: Scanner, c: char): Scanner {
    var next := s.(content := s.content + [c]);
    if s.inString then
      if s.escaped then next.(escaped := false)
      else if c == '\\' then next.(escaped := true)
      else if c == '"' then next.(inString := false)
      else next
    else if c == '"' then next.(inString := true)
    else next
  }

  /** The scanner after `data`, or failure. */
  function Scan(s: Scanner, data: string): Result<Scanner>
    decreases |data|
  {
    if data == "" then Ok(s)
    else if !s.inString && data[0] == '<' then
      if data < EOS then Ok(s.(pending := data))
      else if EOS <= data then Ok(s.(stopped := true))
      else Fail
    else Scan(Consume(s, data[0]), data[1..])
  }

  function Fed(s: Scanner, text: string): Result<Scanner> {
    if s.stopped then Ok(s) else Scan(s.(pending := ""), s.pending + text)
  }

  function FedAll(s: Scanner, chunks: seq<string>): Result<Scanner>
    decreases |chunks|
  {
    if chunks == [] then Ok(s) else
      match Fed(s, chunks[0])
      case Fail => Fail
      case Ok(q) => FedAll(q, chunks[1..])
  }

  lemma ScanNext(s: Scanner, data: string, i: nat)
    requires i < |data| && (s.inString || data[i] != '<')
    ensures Scan(s, data[i..]) == Scan(Consume(s, data[i]), data[i + 1..])
  {
    assert data[i..][1..] == data[i + 1..];
  }

  lemma ScanMark(s: Scanner, data: string, i: nat)
    requires i < |data| && !s.inString && data[i] == '<'
    ensures Scan(s, data[i..]) ==
      if data[i..] < EOS then Ok(s.(pending := data[i..]))
      else if EOS <= data[i..] then Ok(s.(stopped := true))
      else Fail
  {}

  lemma ScanNothing(s: Scanner, data: string)
    ensures Scan(s, data[|data|..]) == Ok(s)
  {}

  lemma ConsumeAdds(s: Scanner, c: char)
    ensures var t := Consume(s, c); t.content == s.content + [c] && t.pending == s.pending && t.stopped == s.stopped
  {}

  // ---------------------------------------------------------------- the result does not depend on the chunks

  lemma {:induction false} ScanInTwo(s: Scanner, a: string, b: string)
    requires s.pending == "" && !s.stopped
    ensures Scan(s, a + b) == match Scan(s, a) case Fail => Fail case Ok(q) => Fed(q, b)
    decreases |a|
  {
    if a == "" {
      assert a + b == b && s.pending + b == b;
    } else if !s.inString && a[0] == '<' {
      if !(a < EOS) { DeepSeek.MarkSettled(EOS, a, b); }
    } else {
      assert (a + b)[1..] == a[1..] + b;
      ScanInTwo(Consume(s, a[0]), a[1..], b);
    }
  }

  /** A scanner between two feeds: what it holds back is a part of the marker, outside a string. */
  predicate Settled(s: Scanner) {
    && (s.pending != "" ==> !s.inString && s.pending < EOS && !s.stopped)
    && (s.escaped ==> s.inString)
  }

  lemma {:induction false} ScanSettles(s: Scanner, data: string)
    requires s.pending == "" && !s.stopped && Settled(s)
    ensures Scan(s, data).Ok? ==> Settled(Scan(s, data).value)
    decreases |data|
  {
    if data != "" && (s.inString || data[0] != '<') { ScanSettles(Consume(s, data[0]), data[1..]); }
  }

  lemma {:induction false} FedAllAtOnce(s: Scanner, chunks: seq<string>)
    requires Settled(s)
    ensures FedAll(s, chunks) == Fed(s, DeepSeek.Flatten(chunks))
    decreases |chunks|
  {
    if chunks == [] {
      assert s.pending + "" == s.pending;
    } else {
      var rest := DeepSeek.Flatten(chunks[1..]);
      if !s.stopped {
        ScanSettles(s.(pending := ""), s.pending + chunks[0]);
        assert (s.pending + chunks[0]) + rest == s.pending + (chunks[0] + rest);
        ScanInTwo(s.(pending := ""), s.pending + chunks[0], rest);
      }
      if Fed(s, chunks[0]).Ok? { FedAllAtOnce(Fed(s, chunks[0]).value, chunks[1..]); }
    }
  }

  /** Two ways of cutting one output end in the same state, held-back text included, or both fail. */
  lemma ChunksDoNotMatter(chunks: seq<string>, others: seq<string>)
    requires DeepSeek.Flatten(chunks) == DeepSeek.Flatten(others)
    ensures FedAll(START, chunks) == FedAll(START, others)
  {
    FedAllAtOnce(START, chunks);
    FedAllAtOnce(START, others);
  }

  // ---------------------------------------------------------------- what is passed on

  /** JSON's own string syntax: whether position `n` of `data` lies inside a string, and behind a backslash. */
  function Lexed(data: string, n: nat): (bool, bool)
    requires n <= |data|
  {
    if n == 0 then (false, false) else
      var (inString, escaped) := Lexed(data, n - 1);
      var c := data[n - 1];
      if !inString then (c == '"', false)
      else if escaped then (true, false)
      else (c != '"', c == '\\')
  }

  /** The first `<` outside a string from `n` on, or the length. */
  function FirstMark(data: string, n: nat): (r: nat)
    requires n <= |data|
    ensures n <= r <= |data|
    ensures r < |data| ==> data[r] == '<' && !Lexed(data, r).0
    ensures forall k | n <= k < r :: Lexed(data, k).0 || data[k] != '<'
    decreases |data| - n
  {
    if n < |data| && (Lexed(data, n).0 || data[n] != '<') then FirstMark(data, n + 1) else n
  }

  /** The scanner that has passed on the first `n` characters of `data`. */
  function After(data: string, n: nat): Scanner
    requires n <= |data|
  {
    Scanner("", data[..n], Lexed(data, n).0, Lexed(data, n).1, false)
  }

  lemma ConsumeLexes(data: string, n: nat)
    requires n < |data|
    ensures Consume(After(data, n), data[n]) == After(data, n + 1)
  {
    assert data[..n] + [data[n]] == data[..n + 1];
    NotEscapedOutside(data, n);
  }

  lemma {:induction false} NotEscapedOutside(data: string, n: nat)
    requires n <= |data|
    ensures Lexed(data, n).1 ==> Lexed(data, n).0
  {
    if n > 0 { NotEscapedOutside(data, n - 1); }
  }

  lemma {:induction false} ScanFrom(data: string, n: nat)
    requires n <= |data|
    ensures Scan(After(data, n), data[n..]) == Scan(After(data, FirstMark(data, n)), data[FirstMark(data, n)..])
    decreases |data| - n
  {
    hide Lexed, Consume;
    if n < |data| && (Lexed(data, n).0 || data[n] != '<') {
      ConsumeLexes(data, n);
      assert data[n..][1..] == data[n + 1..];
      ScanFrom(data, n + 1);
    }
  }

  /**
   For any cutting of an output: exactly the text before its first `<` outside a string is passed on.
   What starts there ends the output if it is the end marker, is held back if it is a part of it, and fails otherwise.
   */
  lemma PassesOnTheDocument(chunks: seq<string>)
    ensures var data := DeepSeek.Flatten(chunks);
      var n := FirstMark(data, 0);
      var rest := data[n..];
      FedAll(START, chunks) ==
        if EOS <= rest then Ok(After(data, n).(stopped := true))
        else if rest < EOS then Ok(After(data, n).(pending := rest))
        else Fail
  {
    var data := DeepSeek.Flatten(chunks);
    FedAllAtOnce(START, chunks);
    assert "" + data == data && data[0..] == data && data[..0] == "";
    ScanFrom(data, 0);
  }

  // ---------------------------------------------------------------- the parser object

  class DeepSeekJsonOutput {
    var raw: string
    var content: string
    var pending: string
    var stopped: bool
    var finished: bool
    var inString: bool
    var escaped: bool

    ghost predicate Valid()
      reads this
    {
      finished == stopped && Settled(State())
    }

    ghost function State(): Scanner
      reads this
    {
      Scanner(pending, content, inString, escaped, stopped)
    }

    constructor ()
      ensures Valid() && State() == START && raw == ""
    {
      raw, content, pending := "", "", "";
      stopped, finished, inString, escaped := false, false, false, false;
    }

    /** The string and escape state after one character. */
    method Track(c: char)
      modifies this`inString, this`escaped
      ensures State() == Consume(old(State()), c).(content := content)
    {
      if inString {
        if escaped {
          escaped := false;
        } else if c == '\\' {
          escaped := true;
        } else if c == '"' {
          inString := false;
        }
      } else if c == '"' {
        inString := true;
      }
    }

    /** The loop of `feed`: what becomes visible, or failure. */
    method ScanText(data: string) returns (r: Result<string>)
      requires pending == "" && !stopped && !finished
      modifies this`pending, this`stopped, this`finished, this`inString, this`escaped
      ensures r.Ok? == Scan(old(State()), data).Ok?
      ensures r.Ok? ==> State().(content := content + r.value) == Scan(old(State()), data).value && finished == stopped
    {
      var visible := "";
      var index := 0;
      ghost var reached := State();
      assert data[0..] == data && content + visible == content;
      hide Scan, Consume;
      while index < |data|
        invariant index <= |data| && !stopped && !finished && pending == ""
        invariant reached == State().(content := content + visible)
        invariant Scan(old(State()), data) == Scan(reached, data[index..])
        decreases |data| - index
      {
        var c := data[index];
        if !inString && c == '<' {
          ScanMark(reached, data, index);
          var suffix := data[index..];
          if suffix < EOS {
            pending := suffix;
            return Ok(visible);
          }
          if EOS <= suffix {
            stopped, finished := true, true;
            return Ok(visible);
          }
          return Fail;
        }
        ScanNext(reached, data, index);
        ConsumeAdds(reached, c);
        reached := Consume(reached, c);
        assert content + (visible + [c]) == content + visible + [c];
        visible := visible + [c];
        Track(c);
        index := index + 1;
      }
      ScanNothing(reached, data);
      return Ok(visible);
    }

    /** On failure the fields written before the last round of the loop stay, as an exception leaves them. */
    method Feed(text: string) returns (delta: Result<string>)
      requires Valid()
      modifies this
      ensures delta.Ok? == Fed(old(State()), text).Ok?
      ensures delta.Ok? ==> Valid() && State() == Fed(old(State()), text).value && content == old(content) + delta.value
      ensures raw == if old(finished) then old(raw) else old(raw) + text
    {
      if finished { return Ok(""); }
      var data := pending + text;
      raw, pending := raw + text, "";
      ScanSettles(State(), data);
      delta := ScanText(data);
      if delta.Ok? { content := content + delta.value; }
    }
  }
}
