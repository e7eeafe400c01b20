/** The parser objects' methods (gateway/deepseek.py), proved against the specification in module DeepSeek. */
module DeepSeekObject {
  import opened Wrappers
  import opened Text
  import opened Dsml
  import opened DeepSeek

  // ---------------------------------------------------------------- pushing a run of text at once

  /** No service marker starts, or could start, in the first `n` characters. */
  ghost predicate Plain(text: string, n: nat)
    requires n <= |text|
  {
    forall i | 0 <= i < n :: !Candidate(text[i..])
  }

  /** `p` with the first `n` pending characters pushed. */
  function PushedRun<V>(p: Parser<V>, n: nat): Parser<V>
    requires n <= |p.pending|
  {
    p.(pushed := p.pushed + p.pending[..n], pending := p.pending[n..])
  }

  lemma {:induction false} RunAtOnce<V>(cfg: Config<V>, p: Parser<V>, n: nat)
    requires n <= |p.pending| && Plain(p.pending, n) && !p.stopped
    ensures Parse(cfg, p) ==
      if p.afterTools && !AllSpace(p.pending, 0, n) then Fail else Parse(cfg, PushedRun(p, n))
    decreases n
  {
    if n == 0 {
      assert PushedRun(p, n) == p by { assert p.pushed + p.pending[..0] == p.pushed; }
    } else {
      assert p.pending[0..] == p.pending && !Candidate(p.pending);
      if !(p.afterTools && !IsSpace(p.pending[0])) {
        var q := PushedRun(p, 1);
        ParsePlain(cfg, p);
        hide *;
        RestIsPlain(p, n);
        RunAtOnce(cfg, q, n - 1);
        RunsJoin(p, n);
      }
    }
  }

  /** One plain character. */
  lemma ParsePlain<V>(cfg: Config<V>, p: Parser<V>)
    requires p.pending != "" && !Candidate(p.pending) && !p.stopped && !(p.afterTools && !IsSpace(p.pending[0]))
    ensures Parse(cfg, p) == Parse(cfg, PushedRun(p, 1))
  {
    hide Candidate, IsSpace;
    assert p.pending[..1] == [p.pending[0]];
  }

  lemma RestIsPlain<V>(p: Parser<V>, n: nat)
    requires 0 < n <= |p.pending| && Plain(p.pending, n)
    ensures var q := PushedRun(p, 1);
      && Plain(q.pending, n - 1) && q.stopped == p.stopped && q.afterTools == p.afterTools && |q.pending| == |p.pending| - 1
      && AllSpace(p.pending, 0, n) == (IsSpace(p.pending[0]) && AllSpace(q.pending, 0, n - 1))
  {
    hide Candidate, IsSpace;
    var q := PushedRun(p, 1);
    forall i | 0 <= i < n - 1 ensures !Candidate(q.pending[i..]) { assert q.pending[i..] == p.pending[i + 1..]; }
    assert forall i | 0 <= i < n - 1 :: q.pending[i] == p.pending[i + 1];
    assert forall i | 1 <= i < n :: p.pending[i] == q.pending[i - 1];
  }

  lemma RunsJoin<V>(p: Parser<V>, n: nat)
    requires 0 < n <= |p.pending|
    ensures PushedRun(PushedRun(p, 1), n - 1) == PushedRun(p, n)
  {
    assert p.pushed + p.pending[..1] + p.pending[1..][..n - 1] == p.pushed + p.pending[..n];
    assert p.pending[1..][n - 1..] == p.pending[n..];
  }

  // ---------------------------------------------------------------- finishing

  datatype Reason = Length | ToolCalls | Stop

  predicate SameCalls<V(==)>(released: seq<Call<V>>, expected: seq<Call<V>>) {
    && |released| == |expected|
    && forall i | 0 <= i < |released| ::
      released[i].name == expected[i].name && multiset(released[i].arguments) == multiset(expected[i].arguments)
  }

  /** The end of an output: `released` are the tool calls that the processor has put together. */
  function Finished<V(==)>(p: Parser<V>, required: bool, length: bool, authoritative: bool, released: seq<Call<V>>): Result<Reason> {
    var cut := length && (authoritative || !p.stopped);
    if p.pending != "" && !p.stopped && !cut then Fail
    else if !SameCalls(released, p.expected) then Fail
    else if required && released == [] && !cut then Fail
    else Ok(if cut then Length else if released != [] then Reason.ToolCalls else Stop)
  }

  /** The end of an output does not depend on its chunks either. */
  lemma ChunksDoNotMatterToTheEnd<V>(cfg: Config<V>, thinking: bool, chunks: seq<string>, others: seq<string>,
                                     required: bool, length: bool, authoritative: bool, released: seq<Call<V>>)
    requires Flatten(chunks) == Flatten(others) && FedAll(cfg, Start(thinking), chunks).Ok?
    ensures FedAll(cfg, Start(thinking), others).Ok?
    ensures Finished(FedAll(cfg, Start(thinking), chunks).value, required, length, authoritative, released)
         == Finished(FedAll(cfg, Start(thinking), others).value, required, length, authoritative, released)
  {
    ChunksDoNotMatter(cfg, thinking, chunks, others);
  }

  // ---------------------------------------------------------------- the parser object

  /** What one round of the loop in `feed` did. */
  datatype Round = Failed | Waiting | Progress

  class DeepSeekOutput<V(==)> {
    const cfg: Config<V>
    const required: bool
    var pending: string
    var raw: string
    var pushed: string
    var expected: seq<Call<V>>
    var inReasoning: bool
    var afterTools: bool
    var stopped: bool

    ghost function State(): Parser<V>
      reads this
    {
      Parser(pending, pushed, expected, inReasoning, afterTools, stopped)
    }

    constructor (cfg: Config<V>, thinking: bool, required: bool)
      ensures this.cfg == cfg && this.required == required && State() == Start(thinking) && raw == ""
    {
      this.cfg, this.required := cfg, required;
      pending, raw, pushed, expected := "", "", "", [];
      inReasoning, afterTools, stopped := thinking, false, false;
    }

    /** The parameters of one invoke, up to its closing tag. */
    method ReadParameters(block: string, from: nat, end: nat) returns (r: Result<(seq<(string, Argument<V>)>, nat)>)
      requires from <= |block| && end <= |block|
      ensures r == Parameters(cfg.codec, block, from, end, [])
    {
      var cursor, arguments := from, [];
      while true
        invariant cursor <= |block|
        invariant Parameters(cfg.codec, block, cursor, end, arguments) == Parameters(cfg.codec, block, from, end, [])
        decreases |block| - cursor
      {
        var at := Skip(block, cursor, end);
        var ending := Tag(block, at, CLOSE, END_INVOKE);
        if ending.Some? { return Ok((arguments, ending.value)); }
        var parameter := ParameterTag(block, at);
        if parameter.None? { return Fail; }
        var (key, isString, start) := parameter.value;
        var closing := FindEndParameter(block[..end], start);
        if closing.None? { return Fail; }
        var value := block[start..closing.value.0];
        if HasKey(arguments, key) || Contains(value, DSML) { return Fail; }
        var decoded := Decode(cfg.codec, isString, value);
        if decoded.Fail? { return Fail; }
        arguments := arguments + [(key, decoded.value)];
        cursor := closing.value.1;
      }
    }

    /** `calls` in front of what the rest of a block holds. */
    ghost function Before(calls: seq<Call<V>>, rest: Result<seq<Call<V>>>): Result<seq<Call<V>>> {
      match rest
      case Fail => Fail
      case Ok(more) => Ok(calls + more)
    }

    lemma BeforeOne(calls: seq<Call<V>>, call: Call<V>, rest: Result<seq<Call<V>>>)
      ensures Before(calls + [call], rest) == Before(calls, Before([call], rest))
    {
      if rest.Ok? { assert calls + [call] + rest.value == calls + ([call] + rest.value); }
    }

    /** One invoke: its call and where its closing tag ends. */
    method ReadInvoke(block: string, cursor: nat, end: nat) returns (r: Result<(Call<V>, nat)>)
      requires cursor <= |block| && end <= |block| && Skip(block, cursor, end) < end
      ensures r.Fail? ==> Invokes(cfg.codec, cfg.tools, block, cursor, end) == Fail
      ensures r.Ok? ==> cursor < r.value.1 <= |block|
      ensures r.Ok? ==> Before([r.value.0], Invokes(cfg.codec, cfg.tools, block, r.value.1, end))
                        == Invokes(cfg.codec, cfg.tools, block, cursor, end)
    {
      var invoke := InvokeTag(block, Skip(block, cursor, end));
      if invoke.None? { return Fail; }
      var (name, from) := invoke.value;
      if name !in cfg.tools { return Fail; }
      var arguments := ReadParameters(block, from, end);
      if arguments.Fail? { return Fail; }
      return Ok((Call(name, arguments.value.0), arguments.value.1));
    }

    method ReadInvokes(block: string, from: nat, end: nat) returns (r: Result<seq<Call<V>>>)
      requires from <= |block| && end <= |block|
      ensures r == Invokes(cfg.codec, cfg.tools, block, from, end)
    {
      hide InvokeTag, Parameters, Skip;
      var cursor, calls := from, [];
      ghost var whole := Invokes(cfg.codec, cfg.tools, block, from, end);
      BeforeNone(whole);
      while Skip(block, cursor, end) < end
        invariant cursor <= |block|
        invariant Before(calls, Invokes(cfg.codec, cfg.tools, block, cursor, end)) == whole
        decreases |block| - cursor
      {
        var invoke := ReadInvoke(block, cursor, end);
        if invoke.Fail? { return Fail; }
        BeforeOne(calls, invoke.value.0, Invokes(cfg.codec, cfg.tools, block, invoke.value.1, end));
        calls := calls + [invoke.value.0];
        cursor := invoke.value.1;
      }
      assert calls + [] == calls;
      return Ok(calls);
    }

    lemma BeforeNone(rest: Result<seq<Call<V>>>)
      ensures Before([], rest) == rest
    {
      if rest.Ok? { assert [] + rest.value == rest.value; }
    }

    method ValidateBlock(block: string) returns (r: Result<seq<Call<V>>>)
      modifies this`expected
      ensures r == Validate(cfg.codec, cfg.tools, block)
      ensures expected == if r.Ok? then old(expected) + r.value else old(expected)
    {
      if cfg.tools == {} { return Fail; }
      var opening := CallsTag(block, 0, OPEN);
      var closing := FindEndCalls(block, 0);
      if opening.None? || closing.None? || opening.value.1 != closing.value.2 { return Fail; }
      r := ReadInvokes(block, opening.value.0, closing.value.0);
      if r == Ok([]) { return Fail; }
      if r.Ok? { expected := expected + r.value; }
    }

    /** Where the first possible service marker starts, or the length. */
    static method FindCandidate(text: string) returns (index: nat)
      ensures index <= |text| && Plain(text, index)
      ensures index < |text| ==> Candidate(text[index..])
    {
      index := 0;
      while index < |text| && !Candidate(text[index..])
        invariant index <= |text| && Plain(text, index)
      {
        index := index + 1;
      }
    }

    method Push(text: string)
      modifies this`pushed
      ensures pushed == old(pushed) + text
    {
      pushed := pushed + text;
    }

    /** A block of tool calls at the start of what is pending. */
    method TakeBlock() returns (r: Round)
      modifies this
      ensures raw == old(raw)
      ensures match r
              case Failed => BlockStep(cfg, old(State())) == Some(Fail)
              case Waiting => BlockStep(cfg, old(State())) == None && State() == old(State())
              case Progress => BlockStep(cfg, old(State())) == Some(Ok(State()))
    {
      hide Validate, CallsTag;
      var ending := FindEndCalls(pending, 0);
      if ending.None? { return Waiting; }
      var e := ending.value.1;
      ghost var taken := BlockTaken(cfg, State(), e);
      assert BlockStep(cfg, State()) == Some(taken);
      var calls := ValidateBlock(pending[..e]);
      if calls.Fail? { return Failed; }
      Push(pending[..e]);
      pending, afterTools := pending[e..], true;
      assert Ok(State()) == taken;
      return Progress;
    }

    /** A marker at the start of what is pending, not cut short. */
    method TakeMarker() returns (r: Round)
      requires pending != "" && Candidate(pending) && !PartOf(MARKERS, pending)
      modifies this
      ensures raw == old(raw)
      ensures match r
              case Failed => Step(cfg, old(State())) == Some(Fail)
              case Waiting => Step(cfg, old(State())) == None && State() == old(State())
              case Progress => Step(cfg, old(State())) == Some(Ok(State()))
    {
      if OPEN <= pending {
        r := TakeBlock();
      } else {
        var marker := FirstOf(MARKERS, pending).value;
        if marker != END_THINK && marker != EOS { return Failed; }
        if marker == END_THINK { inReasoning := false; }
        Push(marker);
        pending := pending[|marker|..];
        if marker == EOS { stopped := true; }
        return Progress;
      }
    }

    /** One round of the loop in `feed`. */
    method TakeRound() returns (r: Round)
      requires pending != "" && !stopped
      modifies this
      ensures raw == old(raw)
      ensures match r
              case Failed => Parse(cfg, old(State())) == Fail
              case Waiting => Parse(cfg, old(State())) == Ok(State())
              case Progress => Parse(cfg, old(State())) == Parse(cfg, State()) && |pending| < |old(pending)|
    {
      var index := FindCandidate(pending);
      RunAtOnce(cfg, State(), index);
      assert pending[..|pending|] == pending;
      if afterTools && SkipSpace(pending[..index], 0) < index { return Failed; }
      Push(pending[..index]);
      pending := pending[index..];
      if pending == "" || PartOf(MARKERS, pending) { return Waiting; }
      r := TakeMarker();
    }

    method Feed(text: string) returns (ok: bool)
      modifies this
      ensures ok == Fed(cfg, old(State()), text).Ok?
      ensures ok ==> State() == Fed(cfg, old(State()), text).value
      ensures raw == if old(stopped) then old(raw) else old(raw) + text
    {
      if stopped { return true; }
      raw, pending := raw + text, pending + text;
      while pending != "" && !stopped
        invariant raw == old(raw) + text
        invariant Parse(cfg, State()) == Fed(cfg, old(State()), text)
        decreases |pending|
      {
        var round := TakeRound();
        if round == Failed { return false; }
        if round == Waiting { return true; }
      }
      return true;
    }

    method Finish(length: bool, authoritative: bool, released: seq<Call<V>>) returns (r: Result<Reason>)
      modifies this`pending
      ensures r == Finished(old(State()), required, length, authoritative, released)
      ensures r.Ok? && !stopped ==> pending == ""
    {
      var cut := length && (authoritative || !stopped);
      if pending != "" && !stopped {
        if !cut { return Fail; }
        pending := "";
      }
      if |released| != |expected| { return Fail; }
      var i := 0;
      while i < |released|
        invariant i <= |released|
        invariant forall k | 0 <= k < i :: released[k].name == expected[k].name
                                        && multiset(released[k].arguments) == multiset(expected[k].arguments)
      {
        if released[i].name != expected[i].name || multiset(released[i].arguments) != multiset(expected[i].arguments) {
          return Fail;
        }
        i := i + 1;
      }
      if required && released == [] && !cut { return Fail; }
      return Ok(if cut then Length else if released != [] then Reason.ToolCalls else Stop);
    }
  }
}
