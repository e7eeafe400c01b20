/**
 The push parsers of gateway/deepseek.py. They hold back a possible part of a service marker, and
 what they make of an output does not depend on how the output was cut into chunks. The external
 recipe processor is an append-only buffer that finishes when the end-of-sentence marker is pushed.
 */
module DeepSeek {
  import opened Wrappers
  import opened Text
  import opened Dsml

  const EOS := "<\U{FF5C}end\U{2581}of\U{2581}sentence\U{FF5C}>"
  const THINK := "<think>"
  const END_THINK := "</think>"
  const SERVICE := "<\U{FF5C}"
  const END_SERVICE := "</\U{FF5C}"
  const MARKERS: seq<string> := [OPEN, CLOSE, EOS, THINK, END_THINK, SERVICE, END_SERVICE]

  datatype Config<!V> = Config(codec: Codec<V>, tools: set<string>)

  /** The parser's fields; `pushed` is what the processor received, `stopped` that it has finished. */
  datatype Parser<V> = Parser(pending: string, pushed: string, expected: seq<Call<V>>,
                              inReasoning: bool, afterTools: bool, stopped: bool)

  function Start<V>(thinking: bool): Parser<V> {
    Parser("", "", [], thinking, false, false)
  }

  // ---------------------------------------------------------------- reading one character or marker at a time

  /** `rest` is a proper part of one of the marks. */
  predicate PartOf(marks: seq<string>, rest: string) {
    marks != [] && (rest < marks[0] || PartOf(marks[1..], rest))
  }

  /** The first of the marks that `rest` starts with. */
  function FirstOf(marks: seq<string>, rest: string): (r: Option<string>)
    ensures r.Some? ==> r.value <= rest && r.value in marks
  {
    if marks == [] then None else if marks[0] <= rest then Some(marks[0]) else FirstOf(marks[1..], rest)
  }

  /** `rest` is, starts with, or could become a service marker. */
  predicate Candidate(rest: string) {
    rest != "" && rest[0] == '<' && (PartOf(MARKERS, rest) || FirstOf(MARKERS, rest).Some?)
  }

  /** One step of the parser on a pending text that is not empty: `None` when it has to wait for more. */
  function Step<V(==)>(cfg: Config<V>, p: Parser<V>): (r: Option<Result<Parser<V>>>)
    requires p.pending != ""
    ensures r.Some? && r.value.Ok? ==> |r.value.value.pending| < |p.pending|
  {
    if !Candidate(p.pending) then Some(TextStep(p))
    else if PartOf(MARKERS, p.pending) then None
    else
      match FirstOf(MARKERS, p.pending)
      case None => None
      case Some(m) => if m == OPEN then BlockStep(cfg, p) else Some(MarkerStep(p, m))
  }

  /** A character of plain text; only white space may follow tool calls. */
  function TextStep<V>(p: Parser<V>): Result<Parser<V>>
    requires p.pending != ""
  {
    if p.afterTools && !IsSpace(p.pending[0]) then Fail
    else Ok(p.(pushed := p.pushed + [p.pending[0]], pending := p.pending[1..]))
  }

  /** A block of tool calls is held back until its closing tag is there. */
  function BlockStep<V(==)>(cfg: Config<V>, p: Parser<V>): (r: Option<Result<Parser<V>>>)
    ensures r.Some? && r.value.Ok? ==> |r.value.value.pending| < |p.pending|
  {
    var closing := FindEndCalls(p.pending, 0);
    if closing.None? then None else Some(BlockTaken(cfg, p, closing.value.1))
  }

  function BlockTaken<V(==)>(cfg: Config<V>, p: Parser<V>, e: nat): Result<Parser<V>>
    requires e <= |p.pending|
  {
    match Validate(cfg.codec, cfg.tools, p.pending[..e])
    case Fail => Fail
    case Ok(calls) => Ok(p.(pushed := p.pushed + p.pending[..e], pending := p.pending[e..],
                            expected := p.expected + calls, afterTools := true))
  }

  /** The other markers: the end of the reasoning, the end of the output, and those that must not occur. */
  function MarkerStep<V>(p: Parser<V>, m: string): Result<Parser<V>>
    requires m <= p.pending
  {
    if m == END_THINK then Ok(p.(pushed := p.pushed + m, pending := p.pending[|m|..], inReasoning := false))
    else if m == EOS then Ok(p.(pushed := p.pushed + m, pending := p.pending[|m|..], stopped := true))
    else Fail
  }

  /** Steps until the parser has stopped, or waits, or fails. */
  function Parse<V(==)>(cfg: Config<V>, p: Parser<V>): Result<Parser<V>>
    decreases |p.pending|
  {
    if p.pending == "" || p.stopped then Ok(p) else
      match Step(cfg, p)
      case None => Ok(p)
      case Some(Fail) => Fail
      case Some(Ok(q)) => Parse(cfg, q)
  }

  /** One call of `feed`. */
  function Fed<V(==)>(cfg: Config<V>, p: Parser<V>, text: string): Result<Parser<V>> {
    if p.stopped then Ok(p) else Parse(cfg, p.(pending := p.pending + text))
  }

  function FedAll<V(==)>(cfg: Config<V>, p: Parser<V>, chunks: seq<string>): Result<Parser<V>>
    decreases |chunks|
  {
    if chunks == [] then Ok(p) else
      match Fed(cfg, p, chunks[0])
      case Fail => Fail
      case Ok(q) => FedAll(cfg, q, chunks[1..])
  }

  function Flatten(chunks: seq<string>): string {
    if chunks == [] then "" else chunks[0] + Flatten(chunks[1..])
  }

  // ---------------------------------------------------------------- decisions that more text does not change

  /** Once a text is no proper part of any mark, more text changes nothing about which mark it starts with. */
  lemma {:induction false} MarksSettled(marks: seq<string>, rest: string, more: string)
    requires !PartOf(marks, rest)
    ensures !PartOf(marks, rest + more) && FirstOf(marks, rest + more) == FirstOf(marks, rest)
  {
    if marks != [] {
      MarkSettled(marks[0], rest, more);
      MarksSettled(marks[1..], rest, more);
    }
  }

  lemma MarkSettled(m: string, rest: string, more: string)
    requires !(rest < m)
    ensures !(rest + more < m) && (m <= rest + more <==> m <= rest)
  {
    assert rest == (rest + more)[..|rest|];
    if |m| <= |rest| { assert (rest + more)[..|m|] == rest[..|m|]; }
  }

  /** `<` occurs in a closing mark at its start only. */
  lemma CloseHasOneBracket(s: string, k: nat, i: nat)
    requires At(s, k, CLOSE) && k < i < |s| && s[i] == '<'
    ensures k + |CLOSE| <= i
  {
    if i < k + |CLOSE| { AtChar(s, k, CLOSE, i - k); }
  }

  lemma WordHasNoBracket(s: string, k: nat, w: Word, i: nat)
    requires At(s, k, WordTag(w)) && k <= i < |s| && s[i] == '<'
    ensures k + |WordTag(w)| <= i
  {
    if i < k + |WordTag(w)| { AtChar(s, k, WordTag(w), i - k); }
  }

  lemma AtExtends(s: string, t: string, k: nat, pat: string)
    requires s <= t && k + |pat| <= |s|
    ensures At(s, k, pat) == At(t, k, pat)
  {
    assert t[k..k + |pat|] == s[k..k + |pat|];
  }

  lemma TagExtends(s: string, t: string, k: nat, mark: string, token: string)
    requires s <= t && token != "" && Tag(s, k, mark, token).Some?
    ensures Tag(t, k, mark, token) == Tag(s, k, mark, token)
  {
    AtExtends(s, t, k, mark);
    var j := SkipSpace(s, k + |mark|);
    SkipSpaceUnique(t, k + |mark|, j);
    AtExtends(s, t, j, token);
  }

  /** A tag of `t` that starts before some `<` of its part `s` lies within `s`. */
  lemma TagWithin(s: string, t: string, k: nat, w: Word, i: nat)
    requires s <= t && k < i < |s| && s[i] == '<'
    requires Tag(t, k, CLOSE, WordTag(w)).Some?
    ensures Tag(s, k, CLOSE, WordTag(w)) == Tag(t, k, CLOSE, WordTag(w))
  {
    hide At, IsSpace, WordTag, SkipSpace;
    CloseHasOneBracket(t, k, i);
    AtExtends(s, t, k, CLOSE);
    var j := SkipSpace(t, k + |CLOSE|);
    BracketStopsSpace(t, k + |CLOSE|, i);
    WordHasNoBracket(t, j, w, i);
    SkipSpaceUnique(s, k + |CLOSE|, j);
    AtExtends(s, t, j, WordTag(w));
  }

  lemma BracketStopsSpace(s: string, k: nat, i: nat)
    requires k <= i < |s| && s[i] == '<'
    ensures SkipSpace(s, k) <= i
  {}

  lemma NoCallsTagBefore(s: string, t: string, k: nat, i: nat)
    requires s <= t && k < i < |s| && s[i] == '<' && CallsTag(s, k, CLOSE).None?
    ensures CallsTag(t, k, CLOSE).None?
  {
    if Tag(t, k, CLOSE, WordTag(Calls)).Some? { TagWithin(s, t, k, Calls, i); }
    else if Tag(t, k, CLOSE, WordTag(ToolCalls)).Some? { TagWithin(s, t, k, ToolCalls, i); }
  }

  lemma EndCallsExtends(s: string, t: string)
    requires s <= t && FindEndCalls(s, 0).Some?
    ensures FindEndCalls(t, 0) == FindEndCalls(s, 0)
  {
    var i := FindEndCalls(s, 0).value.0;
    AtChar(s, i, CLOSE, 0);
    assert s[i] == '<';
    forall k | 0 <= k < i ensures CallsTag(t, k, CLOSE).None? { NoCallsTagBefore(s, t, k, i); }
    CallsTagExtends(s, t, i);
    FirstEndCallsAt(t, 0, i);
  }

  lemma CallsTagExtends(s: string, t: string, i: nat)
    requires s <= t && CallsTag(s, i, CLOSE).Some?
    ensures CallsTag(t, i, CLOSE) == CallsTag(s, i, CLOSE)
  {
    var w := CallsTag(s, i, CLOSE).value.1;
    TagExtends(s, t, i, CLOSE, WordTag(w));
    if w.ToolCalls? {
      var j := SkipSpace(s, i + |CLOSE|);
      AtChar(s, j, WordTag(ToolCalls), 0);
      NotAt(t, SkipSpace(t, i + |CLOSE|), WordTag(Calls), 0);
    }
  }

  lemma {:induction false} FirstEndCallsAt(s: string, c: nat, i: nat)
    requires c <= i && CallsTag(s, i, CLOSE).Some? && forall k | c <= k < i :: CallsTag(s, k, CLOSE).None?
    ensures FindEndCalls(s, c).Some? && FindEndCalls(s, c).value.0 == i
    ensures FindEndCalls(s, c).value.1 == CallsTag(s, i, CLOSE).value.0
    ensures FindEndCalls(s, c).value.2 == CallsTag(s, i, CLOSE).value.1
    decreases i - c
  {
    if c < i { FirstEndCallsAt(s, c + 1, i); }
  }

  /** `q` with more text behind what it has pending. */
  function More<V>(q: Parser<V>, more: string): Parser<V> {
    q.(pending := q.pending + more)
  }

  function MoreOf<V>(r: Result<Parser<V>>, more: string): Result<Parser<V>> {
    match r
    case Fail => Fail
    case Ok(q) => Ok(More(q, more))
  }

  lemma TextStepExtends<V>(p: Parser<V>, more: string)
    requires p.pending != ""
    ensures TextStep(More(p, more)) == MoreOf(TextStep(p), more)
  {
    assert (p.pending + more)[1..] == p.pending[1..] + more;
  }

  lemma MarkerStepExtends<V>(p: Parser<V>, m: string, more: string)
    requires m <= p.pending
    ensures m <= p.pending + more && MarkerStep(More(p, more), m) == MoreOf(MarkerStep(p, m), more)
  {
    assert (p.pending + more)[|m|..] == p.pending[|m|..] + more;
  }

  lemma BlockTakenExtends<V>(cfg: Config<V>, p: Parser<V>, e: nat, more: string)
    requires e <= |p.pending|
    ensures BlockTaken(cfg, More(p, more), e) == MoreOf(BlockTaken(cfg, p, e), more)
  {
    assert (p.pending + more)[..e] == p.pending[..e];
    assert (p.pending + more)[e..] == p.pending[e..] + more;
  }

  lemma BlockStepExtends<V>(cfg: Config<V>, p: Parser<V>, more: string)
    requires BlockStep(cfg, p).Some?
    ensures BlockStep(cfg, More(p, more)).Some?
    ensures BlockStep(cfg, More(p, more)).value == MoreOf(BlockStep(cfg, p).value, more)
  {
    EndCallsExtends(p.pending, p.pending + more);
    BlockTakenExtends(cfg, p, FindEndCalls(p.pending, 0).value.1, more);
  }

  /** A step that can be taken is the same step, whatever text follows. */
  lemma StepExtends<V>(cfg: Config<V>, p: Parser<V>, more: string)
    requires p.pending != "" && Step(cfg, p).Some?
    ensures Step(cfg, More(p, more)).Some?
    ensures Step(cfg, More(p, more)).value == MoreOf(Step(cfg, p).value, more)
  {
    if p.pending[0] == '<' { MarksSettled(MARKERS, p.pending, more); }
    if !Candidate(p.pending) {
      TextStepExtends(p, more);
    } else {
      var m := FirstOf(MARKERS, p.pending).value;
      if m == OPEN { BlockStepExtends(cfg, p, more); } else { MarkerStepExtends(p, m, more); }
    }
  }

  /** Parsing is the same whether the rest of a text is already there or arrives later. */
  lemma {:induction false} ParseExtends<V>(cfg: Config<V>, p: Parser<V>, more: string)
    ensures Parse(cfg, More(p, more)) ==
      match Parse(cfg, p)
      case Fail => Fail
      case Ok(q) => if q.stopped then Ok(More(q, more)) else Parse(cfg, More(q, more))
    decreases |p.pending|
  {
    if p.pending != "" && !p.stopped && Step(cfg, p).Some? {
      StepExtends(cfg, p, more);
      if Step(cfg, p).value.Ok? { ParseExtends(cfg, Step(cfg, p).value.value, more); }
    }
  }

  // ---------------------------------------------------------------- the result does not depend on the chunks

  /** What a consumer can tell two results apart by: what is held back counts only until the parser has stopped. */
  ghost predicate Same<V>(a: Result<Parser<V>>, b: Result<Parser<V>>) {
    a.Ok? == b.Ok? && (a.Ok? ==> SameParser(a.value, b.value))
  }

  ghost predicate SameParser<V>(p: Parser<V>, q: Parser<V>) {
    && p.pushed == q.pushed && p.expected == q.expected && p.stopped == q.stopped
    && p.inReasoning == q.inReasoning && p.afterTools == q.afterTools
    && (!p.stopped ==> p.pending == q.pending)
  }

  lemma {:induction false} ParseSettles<V>(cfg: Config<V>, p: Parser<V>)
    ensures Parse(cfg, p).Ok? ==> Parse(cfg, Parse(cfg, p).value) == Parse(cfg, p)
    decreases |p.pending|
  {
    if p.pending != "" && !p.stopped && Step(cfg, p).Some? && Step(cfg, p).value.Ok? {
      ParseSettles(cfg, Step(cfg, p).value.value);
    }
  }

  /** Feeding a text in two parts is feeding it at once. */
  lemma FedInTwo<V>(cfg: Config<V>, p: Parser<V>, first: string, rest: string)
    ensures Same(Fed(cfg, p, first + rest),
                 match Fed(cfg, p, first) case Fail => Fail case Ok(q) => Fed(cfg, q, rest))
  {
    if !p.stopped {
      assert (p.pending + first) + rest == p.pending + (first + rest);
      ParseExtends(cfg, p.(pending := p.pending + first), rest);
    }
  }

  lemma SameIsTransitive<V>(a: Result<Parser<V>>, b: Result<Parser<V>>, c: Result<Parser<V>>)
    requires Same(a, b) && Same(b, c)
    ensures Same(a, c)
  {
  }

  lemma {:induction false} FedAllAtOnce<V>(cfg: Config<V>, p: Parser<V>, chunks: seq<string>)
    requires Parse(cfg, p) == Ok(p)
    ensures Same(FedAll(cfg, p, chunks), Fed(cfg, p, Flatten(chunks)))
    decreases |chunks|
  {
    if chunks == [] {
      assert p.pending + "" == p.pending;
    } else {
      FedInTwo(cfg, p, chunks[0], Flatten(chunks[1..]));
      if Fed(cfg, p, chunks[0]).Ok? {
        var q := Fed(cfg, p, chunks[0]).value;
        if !p.stopped { ParseSettles(cfg, p.(pending := p.pending + chunks[0])); }
        FedAllAtOnce(cfg, q, chunks[1..]);
        SameIsTransitive(FedAll(cfg, q, chunks[1..]), Fed(cfg, q, Flatten(chunks[1..])), Fed(cfg, p, Flatten(chunks)));
      }
    }
  }

  /** Two ways of cutting one output: both fail, or both push the same text, accept the same calls and end alike. */
  lemma ChunksDoNotMatter<V>(cfg: Config<V>, thinking: bool, chunks: seq<string>, others: seq<string>)
    requires Flatten(chunks) == Flatten(others)
    ensures Same(FedAll(cfg, Start(thinking), chunks), FedAll(cfg, Start(thinking), others))
  {
    FedAllAtOnce(cfg, Start<V>(thinking), chunks);
    FedAllAtOnce(cfg, Start<V>(thinking), others);
  }

  // ---------------------------------------------------------------- nothing is lost

  /** Until it stops the parser has pushed or still holds each character it was fed, in order. */
  lemma {:induction false} ParseKeepsText<V>(cfg: Config<V>, p: Parser<V>)
    ensures Parse(cfg, p).Ok? ==> Parse(cfg, p).value.pushed + Parse(cfg, p).value.pending == p.pushed + p.pending
    decreases |p.pending|
  {
    if p.pending != "" && !p.stopped && Step(cfg, p).Some? && Step(cfg, p).value.Ok? {
      StepKeepsText(cfg, p);
      ParseKeepsText(cfg, Step(cfg, p).value.value);
    }
  }

  lemma StepKeepsText<V>(cfg: Config<V>, p: Parser<V>)
    requires p.pending != "" && Step(cfg, p).Some? && Step(cfg, p).value.Ok?
    ensures Keeps(p, Step(cfg, p).value)
  {
    if !Candidate(p.pending) {
      assert Keeps(p, TextStep(p));
    } else if FirstOf(MARKERS, p.pending) == Some(OPEN) {
      BlockKeepsText(cfg, p, FindEndCalls(p.pending, 0).value.1);
    } else {
      MarkerKeepsText(p, FirstOf(MARKERS, p.pending).value);
    }
  }

  ghost predicate Keeps<V>(p: Parser<V>, r: Result<Parser<V>>) {
    r.Ok? ==> r.value.pushed + r.value.pending == p.pushed + p.pending
  }

  lemma BlockKeepsText<V>(cfg: Config<V>, p: Parser<V>, e: nat)
    requires e <= |p.pending|
    ensures Keeps(p, BlockTaken(cfg, p, e))
  {
    assert p.pending[..e] + p.pending[e..] == p.pending;
  }

  lemma MarkerKeepsText<V>(p: Parser<V>, m: string)
    requires m <= p.pending
    ensures Keeps(p, MarkerStep(p, m))
  {
    assert m + p.pending[|m|..] == p.pending;
  }

  lemma {:induction false} FedAllKeepsText<V>(cfg: Config<V>, p: Parser<V>, chunks: seq<string>)
    requires FedAll(cfg, p, chunks).Ok?
    ensures var q := FedAll(cfg, p, chunks).value;
      if q.stopped then q.pushed + q.pending <= p.pushed + p.pending + Flatten(chunks)
      else q.pushed + q.pending == p.pushed + p.pending + Flatten(chunks)
    decreases |chunks|
  {
    hide Parse;
    if chunks != [] {
      var q := Fed(cfg, p, chunks[0]).value;
      if p.stopped {
        StoppedStays(cfg, p, chunks);
      } else {
        ParseKeepsText(cfg, p.(pending := p.pending + chunks[0]));
        FedAllKeepsText(cfg, q, chunks[1..]);
        assert p.pushed + p.pending + Flatten(chunks) == q.pushed + q.pending + Flatten(chunks[1..]);
      }
    }
  }

  lemma {:induction false} StoppedStays<V>(cfg: Config<V>, p: Parser<V>, chunks: seq<string>)
    requires p.stopped
    ensures FedAll(cfg, p, chunks) == Ok(p)
    decreases |chunks|
  {
    if chunks != [] { StoppedStays(cfg, p, chunks[1..]); }
  }
}
