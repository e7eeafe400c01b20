/**
 From a conversation to an output budget (gateway/generation.py, gateway/context_compression.py,
 gateway/prompt.py, gateway/token_budget.py): what preparing the context guarantees about the
 budget that is chosen afterwards. Rendering and counting are arbitrary functions.
 */
module Budget {
  import opened Wrappers
  import opened Turns
  import opened Selection

  /** `GenerationLimits`; all three are read as positive integers. */
  datatype Limits = Limits(standard: nat, cap: nat, window: nat)

  predicate Legal(l: Limits) {
    l.standard >= 1 && l.cap >= 1 && l.window >= 1
  }

  /** The tokens of the rendered prompt, and the media tokens it does not contain; measuring media may fail. */
  datatype Measure = Measure(tokens: Conversation -> nat, media: Conversation -> Option<nat>)

  datatype Mode = Disabled | Truncating | Summarizing

  /** The ratios are at most one. */
  datatype Settings = Settings(mode: Mode, fallback: bool, margin: nat, trigger: real, target: real,
                               preserve: nat, summaryTokens: nat)

  predicate LegalSettings(s: Settings) {
    0.0 < s.target <= s.trigger <= 1.0
  }

  datatype Action = Unchanged | Truncated | Summarized

  datatype Prepared = Prepared(conversation: Conversation, tokens: nat, action: Action)

  // ---------------------------------------------------------------- budgets

  /** `choose_budget`: the effective output limit. */
  function ChooseBudget(l: Limits, requested: Option<nat>, tokens: nat, media: nat, margin: nat): Result<nat> {
    if requested.Some? && requested.value > l.cap then Fail
    else
      var available := l.window - tokens - media - margin;
      var effective := if requested.Some? then requested.value else Least(l.standard, Least(l.cap, available));
      if effective <= 0 || effective > available then Fail else Ok(effective)
  }

  function Least(a: int, b: int): int {
    if a < b then a else b
  }

  function Most(a: int, b: int): int {
    if a < b then b else a
  }

  /** The output that a request asks for at least. */
  function Wanted(requested: Option<nat>): nat {
    if requested.Some? then requested.value else 1
  }

  /** An output that the limits and the window leave room for. */
  predicate MayBe(l: Limits, tokens: nat, media: nat, margin: nat, output: int) {
    1 <= output <= l.cap && output <= l.standard && tokens + media + output + margin <= l.window
  }

  /**
   A budget is chosen exactly when the request stays within the cap, and the prompt, the media, the margin
   and the output wanted fit the window: the output requested, or the largest one there is room for.
   */
  lemma BudgetExactly(l: Limits, requested: Option<nat>, tokens: nat, media: nat, margin: nat)
    requires Legal(l) && Wanted(requested) >= 1
    ensures ChooseBudget(l, requested, tokens, media, margin).Ok? <==>
      Wanted(requested) <= l.cap && tokens + media + Wanted(requested) + margin <= l.window
    ensures ChooseBudget(l, requested, tokens, media, margin).Ok? ==>
      var e := ChooseBudget(l, requested, tokens, media, margin).value;
      && 1 <= e <= l.cap && tokens + media + e + margin <= l.window
      && (requested.Some? ==> e == requested.value)
      && (requested.None? ==> MayBe(l, tokens, media, margin, e) && forall n | MayBe(l, tokens, media, margin, n) :: n <= e)
  {}

  /** `context_prompt_limit`. */
  function PromptLimit(window: nat, output: nat, media: nat, margin: nat): Result<nat> {
    var limit := window - Most(output, 1) - media - margin;
    if limit <= 0 then Fail else Ok(limit)
  }

  /** `max(int(limit * ratio), 1)`. */
  function Scaled(limit: nat, ratio: real): int {
    Most((limit as real * ratio).Floor, 1)
  }

  lemma ScaledBelow(limit: nat, ratio: real)
    requires limit >= 1 && 0.0 < ratio <= 1.0
    ensures Scaled(limit, ratio) <= limit
  {
    assert limit as real * ratio <= limit as real;
  }

  // ---------------------------------------------------------------- responses

  /** How many turns `_prepare_responses_context` drops, from `k` on; it fails where a measurement fails. */
  function ResponsesFit(c: Conversation, m: Measure, room: int, truncate: bool, k: nat): (r: Option<nat>)
    ensures r.Some? ==> k <= r.value && (r.value == k || truncate)
    ensures r.Some? ==> m.media(Kept(c, r.value)).Some?
    ensures r.Some? ==> m.tokens(Kept(c, r.value)) + m.media(Kept(c, r.value)).value <= room
    ensures r.Some? ==> forall j | k <= j < r.value ::
      m.media(Kept(c, j)).Some? && m.tokens(Kept(c, j)) + m.media(Kept(c, j)).value > room
    decreases TurnCount(c) + 1 - k
  {
    if m.media(Kept(c, k)).None? then None
    else if m.tokens(Kept(c, k)) + m.media(Kept(c, k)).value <= room then Some(k)
    else if truncate && k < TurnCount(c) then ResponsesFit(c, m, room, truncate, k + 1)
    else None
  }

  function ResponsesPrepared(c: Conversation, m: Measure, room: int, truncate: bool): Result<Prepared> {
    match ResponsesFit(c, m, room, truncate, 0)
    case None => Fail
    case Some(k) => Ok(Prepared(Kept(c, k), m.tokens(Kept(c, k)), if Kept(c, k) == c then Unchanged else Truncated))
  }

  /** `_prepare_responses_context`. */
  method PrepareResponses(c: Conversation, m: Measure, window: nat, reserve: nat, margin: nat, truncate: bool)
    returns (r: Result<Prepared>)
    ensures r == ResponsesPrepared(c, m, window - reserve - margin, truncate)
  {
    var fitted := c;
    ghost var k, fit := 0, ResponsesFit(c, m, window - reserve - margin, truncate, 0);
    SelectAll(c, 0);
    while true
      invariant k <= TurnCount(c) && fitted == Kept(c, k)
      invariant fit == ResponsesFit(c, m, window - reserve - margin, truncate, k)
      decreases TurnCount(c) - k
    {
      hide Kept, TurnCount, InOldestTurn;
      var tokens, media := m.tokens(fitted), m.media(fitted);
      if media.None? { return Fail; }
      if tokens + media.value + reserve + margin <= window {
        return Ok(Prepared(fitted, tokens, if fitted == c then Unchanged else Truncated));
      }
      if !truncate { return Fail; }
      var removable := OldestRemovableTurn(fitted);
      KeptTwice(c, k, 1);
      if removable == [] { return Fail; }
      fitted := Without(fitted, removable);
      k := k + 1;
    }
  }

  // ---------------------------------------------------------------- summarizing

  /**
   The texts of the two messages that carry a summary: the first names a boundary and how many
   messages are covered, the second holds the summary and selected evidence. Boundary and evidence
   are functions of the messages removed.
   */
  datatype Texts = Texts(instruction: (string, nat) -> string, data: (string, string) -> string,
                         boundary: Conversation -> string, evidence: Conversation -> string)

  function LeadingSystems(c: Conversation): (r: nat)
    ensures r <= |c| && (forall i | 0 <= i < r :: c[i].role.System?) && (r < |c| ==> !c[r].role.System?)
  {
    if c == [] || !c[0].role.System? then 0 else 1 + LeadingSystems(c[1..])
  }

  /** `_inject_summary`: behind the leading system messages. */
  function Inject(t: Texts, c: Conversation, summary: string, evidence: string, boundary: string, covered: nat): Conversation {
    var n := LeadingSystems(c);
    c[..n] + [Message(System, t.instruction(boundary, covered)), Message(Assistant, t.data(summary, evidence))] + c[n..]
  }

  /** The kept messages with the summary of those that are gone. */
  function WithSummary(t: Texts, retained: Conversation, removed: Conversation, summary: string): Conversation {
    Inject(t, retained, summary, t.evidence(removed), t.boundary(removed), |removed|)
  }

  /** The prompt with an empty summary and a placeholder for the boundary, and room for the summary and its evidence. */
  function EstimatedTokens(t: Texts, m: Measure, s: Settings, retained: Conversation, covered: nat): nat {
    m.tokens(Inject(t, retained, "", "", "placeholder", covered)) + s.summaryTokens
  }

  function Estimate(t: Texts, m: Measure, s: Settings): (Conversation, nat) -> nat {
    (retained, covered) => EstimatedTokens(t, m, s, retained, covered)
  }

  /** A summarized conversation: the least selection of turns replaced by what was written about them, if that fits. */
  function SummarizedTo(c: Conversation, t: Texts, m: Measure, limit: int, s: Settings, written: Option<string>): (r: Option<Conversation>)
    ensures r.Some? ==> m.tokens(r.value) <= limit
  {
    var k := LeastSummary(c, Estimate(t, m, s), limit, s.preserve, 1);
    if k.None? || written.None? then None
    else
      var fitted := WithSummary(t, Kept(c, k.value), Gone(c, k.value), written.value);
      if m.tokens(fitted) > limit then None else Some(fitted)
  }

  /** `_summarize_context`: `written` is what the cache or the summary model came up with, if anything. */
  method SummarizeContext(c: Conversation, t: Texts, m: Measure, limit: int, s: Settings, written: Option<string>)
    returns (r: Option<Conversation>)
    ensures r == SummarizedTo(c, t, m, limit, s, written)
  {
    var selected := SelectSource(c, Estimate(t, m, s), limit, s.preserve);
    if selected.Fail? || written.None? { return None; }
    var fitted := WithSummary(t, selected.value.0, selected.value.1, written.value);
    if m.tokens(fitted) > limit { return None; }
    return Some(fitted);
  }

  // ---------------------------------------------------------------- preparing a chat

  /** From how many tokens on, and down to how many, a conversation is summarized. */
  function Trigger(limit: nat, s: Settings): int {
    if s.mode.Summarizing? then Scaled(limit, s.trigger) else limit
  }

  function Target(limit: nat, s: Settings): int {
    if s.mode.Summarizing? then Scaled(limit, s.target) else limit
  }

  /** What truncation to `limit` makes of a conversation. */
  function TruncatedTo(c: Conversation, m: Measure, limit: nat): Result<Prepared> {
    match LeastFit(c, m.tokens, limit, 0)
    case None => Fail
    case Some(k) => Ok(Prepared(Kept(c, k), m.tokens(Kept(c, k)), Truncated))
  }

  /** What becomes of a conversation that exceeds the trigger. */
  function Compressed(c: Conversation, t: Texts, m: Measure, limit: nat, s: Settings, written: Option<string>): Result<Prepared> {
    match s.mode
    case Disabled => Fail
    case Truncating => TruncatedTo(c, m, limit)
    case Summarizing =>
      var summarized := SummarizedTo(c, t, m, Target(limit, s), s, written);
      if summarized.Some? then Ok(Prepared(summarized.value, m.tokens(summarized.value), Summarized))
      else if !s.fallback then Fail
      else if m.tokens(c) <= limit then Ok(Prepared(c, m.tokens(c), Unchanged))
      else TruncatedTo(c, m, limit)
  }

  /** What becomes of a conversation under a prompt limit, if there is room for a prompt at all. */
  function ConversationPrepared(c: Conversation, t: Texts, m: Measure, limit: Result<nat>, s: Settings,
                                written: Option<string>): Result<Prepared> {
    if limit.Fail? then Fail
    else if m.tokens(c) <= Trigger(limit.value, s) then Ok(Prepared(c, m.tokens(c), Unchanged))
    else Compressed(c, t, m, limit.value, s, written)
  }

  /** What is prepared is what was counted, leaves room for the output reserved, and is the input if called unchanged. */
  lemma ConversationFits(c: Conversation, t: Texts, m: Measure, window: nat, output: nat, media: nat, s: Settings, written: Option<string>)
    requires LegalSettings(s)
    ensures var r := ConversationPrepared(c, t, m, PromptLimit(window, output, media, s.margin), s, written);
      r.Ok? ==>
        && r.value.tokens == m.tokens(r.value.conversation)
        && r.value.tokens + Most(output, 1) + media + s.margin <= window
        && (r.value.action.Unchanged? ==> r.value.conversation == c)
  {
    var limit := PromptLimit(window, output, media, s.margin);
    if limit.Ok? {
      ScaledBelow(limit.value, s.trigger);
      ScaledBelow(limit.value, s.target);
      hide Scaled, LeastFit, Kept, SummarizedTo;
    }
  }

  /** No more than this share of the limit, or a single token. */
  predicate Within(tokens: nat, limit: nat, ratio: real) {
    tokens <= 1 || tokens as real <= limit as real * ratio
  }

  lemma ScaledIs(tokens: nat, limit: nat, ratio: real)
    ensures tokens <= Scaled(limit, ratio) <==> Within(tokens, limit, ratio)
  {
    var x := limit as real * ratio;
    assert x.Floor as real <= x < (x.Floor + 1) as real;
  }

  /** Small enough to pass as it is: below the trigger where summaries are written, within the limit elsewhere. */
  predicate Calm(tokens: nat, limit: nat, s: Settings) {
    if s.mode.Summarizing? then Within(tokens, limit, s.trigger) else tokens <= limit
  }

  /** What may come out under a limit that leaves `room` for the prompt. */
  predicate Acts(c: Conversation, m: Measure, room: int, s: Settings, written: Option<string>, r: Result<Prepared>) {
    if room <= 0 then r == Fail
    else if Calm(m.tokens(c), room, s) then r == Ok(Prepared(c, m.tokens(c), Unchanged))
    else match s.mode
      case Disabled => r == Fail
      case Truncating => r.Ok? ==> r.value.action.Truncated?
      case Summarizing => r.Ok? ==>
        && (r.value.action.Summarized? ==> Within(r.value.tokens, room, s.target) && written.Some?)
        && (!r.value.action.Summarized? ==> s.fallback && (r.value.action.Unchanged? <==> m.tokens(c) <= room))
  }

  lemma CalmIs(tokens: nat, limit: nat, s: Settings)
    ensures Calm(tokens, limit, s) <==> tokens <= Trigger(limit, s)
  {
    ScaledIs(tokens, limit, s.trigger);
    hide Scaled, Within;
  }

  lemma CompressedActs(c: Conversation, t: Texts, m: Measure, limit: nat, s: Settings, written: Option<string>)
    requires limit > 0 && !Calm(m.tokens(c), limit, s)
    ensures Acts(c, m, limit, s, written, Compressed(c, t, m, limit, s, written))
  {
    if s.mode.Summarizing? {
      var summarized := SummarizedTo(c, t, m, Target(limit, s), s, written);
      if summarized.Some? {
        SummaryIsShort(c, t, m, Target(limit, s), s, written);
        ScaledIs(m.tokens(summarized.value), limit, s.target);
      }
    }
    hide Scaled, Within, Calm, LeastFit, Kept, SummarizedTo;
  }

  /** The prompt limit and the conversation decide what is done, a summary's outcome between summary and fallback. */
  lemma ConversationActs(c: Conversation, t: Texts, m: Measure, window: nat, output: nat, media: nat, s: Settings, written: Option<string>)
    requires LegalSettings(s)
    ensures Acts(c, m, window - Most(output, 1) - media - s.margin, s, written,
                 ConversationPrepared(c, t, m, PromptLimit(window, output, media, s.margin), s, written))
  {
    var limit := PromptLimit(window, output, media, s.margin);
    if limit.Ok? {
      CalmIs(m.tokens(c), limit.value, s);
      hide Calm, Trigger, Compressed, Within;
      if m.tokens(c) > Trigger(limit.value, s) {
        hide Acts;
        CompressedActs(c, t, m, limit.value, s, written);
      }
    }
  }

  lemma SummaryIsShort(c: Conversation, t: Texts, m: Measure, limit: int, s: Settings, written: Option<string>)
    requires SummarizedTo(c, t, m, limit, s, written).Some?
    ensures written.Some? && m.tokens(SummarizedTo(c, t, m, limit, s, written).value) <= limit
  {}

  /** `prepare_conversation_context`. */
  method PrepareConversation(c: Conversation, t: Texts, m: Measure, window: nat, output: nat, media: nat, s: Settings,
                             written: Option<string>)
    returns (r: Result<Prepared>)
    requires LegalSettings(s)
    ensures r == ConversationPrepared(c, t, m, PromptLimit(window, output, media, s.margin), s, written)
  {
    var limit := PromptLimit(window, output, media, s.margin);
    if limit.Fail? { return Fail; }
    hide Scaled, LeastFit, Kept, Gone, SummarizedTo;
    var tokens := m.tokens(c);
    if tokens <= Trigger(limit.value, s) { return Ok(Prepared(c, tokens, Unchanged)); }
    if s.mode.Disabled? { return Fail; }
    if s.mode.Summarizing? {
      var summarized := SummarizeContext(c, t, m, Target(limit.value, s), s, written);
      if summarized.Some? {
        return Ok(Prepared(summarized.value, m.tokens(summarized.value), Summarized));
      }
      if !s.fallback { return Fail; }
      if tokens <= limit.value { return Ok(Prepared(c, tokens, Unchanged)); }
    }
    var fitted := Fit(c, m.tokens, limit.value);
    if fitted.Fail? { return Fail; }
    return Ok(Prepared(fitted.value.0, m.tokens(fitted.value.0), Truncated));
  }

  // ---------------------------------------------------------------- from the request to the budget

  /** What decides how a request is prepared: a Responses request brings its own mode. */
  datatype Request = Request(requested: Option<nat>, responses: Option<Mode>, deepseekImages: bool)

  predicate LegalRequest(q: Request, l: Limits) {
    && Wanted(q.requested) >= 1
    && (q.requested.Some? ==> q.requested.value <= l.cap)
    && (q.responses.Some? ==> !q.responses.value.Summarizing?)
  }

  /** The room that the unprepared conversation would leave. */
  function Available(l: Limits, m: Measure, c: Conversation, media: nat, margin: nat): int {
    l.window - m.tokens(c) - media - margin
  }

  function Reserve(q: Request, l: Limits, available: int): nat {
    if q.requested.Some? then q.requested.value else Most(1, Least(l.standard, Least(l.cap, available)))
  }

  /** Without a requested limit, and with room left, nothing is compressed. */
  function Effective(q: Request, s: Settings, available: int): Settings {
    if q.requested.None? && available > 0 then s.(mode := Disabled) else s
  }

  predicate OnResponsesPath(q: Request, s: Settings, available: int) {
    q.responses.Some? || (q.deepseekImages && Effective(q, s, available).mode.Truncating?)
  }

  /** Rendering and counting do not tell a conversation from its canonical form. */
  ghost predicate Agrees(m: Measure, canonical: Conversation -> Conversation) {
    forall c :: m.tokens(canonical(c)) == m.tokens(c) && m.media(canonical(c)) == m.media(c)
  }

  /** No requested limit, a prompt that is not empty, and room left for an answer. */
  predicate HasRoom(c: Conversation, q: Request, l: Limits, m: Measure, s: Settings) {
    && q.requested.None? && m.tokens(c) >= 1 && m.media(c).Some?
    && Available(l, m, c, m.media(c).value, s.margin) > 0
  }

  /** How many tokens the prompt may have outside the Responses path. */
  function LimitFor(c: Conversation, q: Request, l: Limits, m: Measure, s: Settings): Result<nat>
    requires m.media(c).Some?
  {
    var media := m.media(c).value;
    PromptLimit(l.window, Reserve(q, l, Available(l, m, c, media, s.margin)), media, s.margin)
  }

  predicate ByResponses(c: Conversation, q: Request, l: Limits, m: Measure, s: Settings)
    requires m.media(c).Some?
  {
    OnResponsesPath(q, s, Available(l, m, c, m.media(c).value, s.margin))
  }

  function EffectiveFor(c: Conversation, q: Request, l: Limits, m: Measure, s: Settings): Settings
    requires m.media(c).Some?
  {
    Effective(q, s, Available(l, m, c, m.media(c).value, s.margin))
  }

  /** The prepared context, on either path. */
  function PreparedFor(c: Conversation, q: Request, l: Limits, t: Texts, m: Measure, s: Settings, written: Option<string>): Result<Prepared>
    requires m.media(c).Some?
  {
    if ByResponses(c, q, l, m, s) then
      var output := if q.responses.Some? then Wanted(q.requested) else Reserve(q, l, Available(l, m, c, m.media(c).value, s.margin));
      ResponsesPrepared(c, m, l.window - output - s.margin, s.mode.Truncating?)
    else ConversationPrepared(c, t, m, LimitFor(c, q, l, m, s), EffectiveFor(c, q, l, m, s), written)
  }

  /** The output budget of a request, if it gets one. */
  function OutputFor(c: Conversation, q: Request, l: Limits, t: Texts, m: Measure, s: Settings, written: Option<string>): Result<nat> {
    if m.media(c).None? then Fail else
      var prepared := PreparedFor(c, q, l, t, m, s, written);
      if prepared.Fail? || m.media(prepared.value.conversation).None? then Fail
      else
        var conversation := prepared.value.conversation;
        ChooseBudget(l, q.requested, m.tokens(conversation), m.media(conversation).value, s.margin)
  }

  /** What preparation guarantees; outside the Responses path the media are those of the whole conversation. */
  lemma PreparedFits(c: Conversation, q: Request, l: Limits, t: Texts, m: Measure, s: Settings, written: Option<string>)
    requires Legal(l) && LegalSettings(s) && LegalRequest(q, l) && m.media(c).Some?
    requires q.responses.Some? ==> s.mode == q.responses.value
    ensures var r := PreparedFor(c, q, l, t, m, s, written);
      && (r.Ok? ==> r.value.tokens == m.tokens(r.value.conversation))
      && (r.Ok? && r.value.action.Unchanged? ==> r.value.conversation == c)
      && (r.Ok? && ByResponses(c, q, l, m, s) ==>
        && m.media(r.value.conversation).Some?
        && r.value.tokens + m.media(r.value.conversation).value + Wanted(q.requested) + s.margin <= l.window)
      && (r.Ok? && !ByResponses(c, q, l, m, s) ==>
        r.value.tokens + m.media(c).value + Wanted(q.requested) + s.margin <= l.window)
      && (HasRoom(c, q, l, m, s) ==> r.Ok? && r.value.action.Unchanged?)
  {
    var media := m.media(c).value;
    var available := Available(l, m, c, media, s.margin);
    ConversationFits(c, t, m, l.window, Reserve(q, l, available), media, Effective(q, s, available), written);
    SelectAll(c, 0);
    hide Kept, LeastFit, SummarizedTo;
  }

  /**
   What is done is told by the request and by the room that the conversation leaves as it is: with room and no
   requested limit nothing is done, unless the prompt is empty; otherwise the output wanted is reserved.
   */
  lemma PreparedByRoom(c: Conversation, q: Request, l: Limits, t: Texts, m: Measure, s: Settings, written: Option<string>)
    requires Legal(l) && LegalSettings(s) && LegalRequest(q, l) && m.media(c).Some?
    requires q.responses.Some? ==> s.mode == q.responses.value
    ensures var r := PreparedFor(c, q, l, t, m, s, written); var media := m.media(c).value;
      if q.responses.Some? then
        r == ResponsesPrepared(c, m, l.window - Wanted(q.requested) - s.margin, q.responses.value.Truncating?)
      else if q.requested.None? && m.tokens(c) + media + s.margin < l.window then
        m.tokens(c) >= 1 ==> r == Ok(Prepared(c, m.tokens(c), Unchanged))
      else if q.deepseekImages && s.mode.Truncating? then
        r == ResponsesPrepared(c, m, l.window - Wanted(q.requested) - s.margin, true)
      else
        r == ConversationPrepared(c, t, m, PromptLimit(l.window, Wanted(q.requested), media, s.margin), s, written)
  {
    SelectAll(c, 0);
    hide Kept, LeastFit, SummarizedTo, Compressed, ResponsesPrepared;
  }

  /** Preparing the context on either path. */
  method Prepare(c: Conversation, q: Request, l: Limits, t: Texts, m: Measure, settings: Settings, written: Option<string>)
    returns (r: Result<Prepared>)
    requires Legal(l) && LegalSettings(settings) && LegalRequest(q, l) && m.media(c).Some?
    requires q.responses.Some? ==> settings.mode == q.responses.value
    ensures r == PreparedFor(c, q, l, t, m, settings, written)
  {
    var media := m.media(c).value;
    var available := Available(l, m, c, media, settings.margin);
    var reserve := Reserve(q, l, available);
    if OnResponsesPath(q, settings, available) {
      var output := if q.responses.Some? then Wanted(q.requested) else reserve;
      r := PrepareResponses(c, m, l.window, output, settings.margin, settings.mode.Truncating?);
    } else {
      r := PrepareConversation(c, t, m, l.window, reserve, media, Effective(q, settings, available), written);
    }
  }

  /**
   The whole section: prepare, put into canonical order, measure the media again, choose a budget.
   A budget that is chosen fits. If preparation succeeds, one is chosen for every text-only request,
   every unchanged conversation, and on the Responses path. With no requested limit, room left, and a
   prompt that is not empty, the conversation passes unchanged. When a truncated or summarized
   conversation gets a budget is the matter of `TruncatedBudget`, `SummarizedBudget` and `FallbackBudget`.
   */
  method ChooseOutput(c: Conversation, q: Request, l: Limits, t: Texts, m: Measure, settings: Settings,
                      written: Option<string>, canonical: Conversation -> Conversation)
    returns (r: Result<(Conversation, nat)>)
    requires Legal(l) && LegalSettings(settings) && LegalRequest(q, l) && Agrees(m, canonical)
    requires q.responses.Some? ==> settings.mode == q.responses.value
    ensures r.Ok? <==> OutputFor(c, q, l, t, m, settings, written).Ok?
    ensures r.Ok? ==>
      && r.value.0 == canonical(PreparedFor(c, q, l, t, m, settings, written).value.conversation) && m.media(r.value.0).Some?
      && 1 <= r.value.1 <= l.cap
      && m.tokens(r.value.0) + m.media(r.value.0).value + r.value.1 + settings.margin <= l.window
      && (q.requested.Some? ==> r.value.1 == q.requested.value)
    ensures m.media(c).Some? && PreparedFor(c, q, l, t, m, settings, written).Ok? ==>
      var prepared := PreparedFor(c, q, l, t, m, settings, written).value;
      && (ByResponses(c, q, l, m, settings) ==> r.Ok?)
      && (prepared.action.Unchanged? ==> r.Ok?)
      && (m.media(prepared.conversation) == Some(0) ==> r.Ok?)
    ensures HasRoom(c, q, l, m, settings) ==> r.Ok? && r.value.0 == canonical(c)
  {
    if m.media(c).None? { return Fail; }
    PreparedFits(c, q, l, t, m, settings, written);
    hide PreparedFor, ByResponses;
    var prepared := Prepare(c, q, l, t, m, settings, written);
    if prepared.Fail? { return Fail; }
    var conversation := canonical(prepared.value.conversation);
    assert m.tokens(conversation) == prepared.value.tokens && m.media(conversation) == m.media(prepared.value.conversation);
    var media := m.media(conversation);
    if media.None? { return Fail; }
    BudgetExactly(l, q.requested, prepared.value.tokens, media.value, settings.margin);
    var budget := ChooseBudget(l, q.requested, prepared.value.tokens, media.value, settings.margin);
    if budget.Fail? { return Fail; }
    return Ok((conversation, budget.value));
  }

  // ---------------------------------------------------------------- which compressed conversations get a budget

  /** A conversation fits with its own media. */
  predicate FitsWithMedia(d: Conversation, q: Request, l: Limits, m: Measure, margin: nat) {
    m.media(d).Some? && m.tokens(d) + m.media(d).value + Wanted(q.requested) + margin <= l.window
  }

  /** Truncation outside the Responses path: the least number of turns is chosen by the media of all, and must fit by those left. */
  lemma TruncatedBudget(c: Conversation, q: Request, l: Limits, t: Texts, m: Measure, s: Settings, written: Option<string>)
    requires Legal(l) && LegalRequest(q, l) && m.media(c).Some? && !ByResponses(c, q, l, m, s)
    requires EffectiveFor(c, q, l, m, s).mode.Truncating?
    requires LimitFor(c, q, l, m, s).Ok? && m.tokens(c) > LimitFor(c, q, l, m, s).value
    ensures OutputFor(c, q, l, t, m, s, written).Ok? <==>
      var k := LeastFit(c, m.tokens, LimitFor(c, q, l, m, s).value, 0);
      k.Some? && FitsWithMedia(Kept(c, k.value), q, l, m, s.margin)
  {
    hide Kept, LeastFit, LimitFor, ByResponses, EffectiveFor;
    var k := LeastFit(c, m.tokens, LimitFor(c, q, l, m, s).value, 0);
    if k.Some? && m.media(Kept(c, k.value)).Some? {
      BudgetExactly(l, q.requested, m.tokens(Kept(c, k.value)), m.media(Kept(c, k.value)).value, s.margin);
    }
  }

  /** A summary: turns are chosen by an estimate, and the conversation with the summary must fit by its own media. */
  lemma SummarizedBudget(c: Conversation, q: Request, l: Limits, t: Texts, m: Measure, s: Settings, written: Option<string>, k: nat)
    requires Legal(l) && LegalRequest(q, l) && m.media(c).Some? && !ByResponses(c, q, l, m, s)
    requires var e := EffectiveFor(c, q, l, m, s);
      && e.mode.Summarizing? && LimitFor(c, q, l, m, s).Ok?
      && m.tokens(c) > Trigger(LimitFor(c, q, l, m, s).value, e)
      && LeastSummary(c, Estimate(t, m, e), Target(LimitFor(c, q, l, m, s).value, e), e.preserve, 1) == Some(k)
      && written.Some?
      && m.tokens(WithSummary(t, Kept(c, k), Gone(c, k), written.value)) <= Target(LimitFor(c, q, l, m, s).value, e)
    ensures OutputFor(c, q, l, t, m, s, written).Ok?
       <==> FitsWithMedia(WithSummary(t, Kept(c, k), Gone(c, k), written.value), q, l, m, s.margin)
  {
    hide Kept, Gone, LeastSummary, LimitFor, ByResponses, EffectiveFor, Inject, Scaled, Estimate;
    var d := WithSummary(t, Kept(c, k), Gone(c, k), written.value);
    if m.media(d).Some? {
      BudgetExactly(l, q.requested, m.tokens(d), m.media(d).value, s.margin);
    }
  }

  /** Without a usable summary, truncation takes its place if it may; what fits the limit as it is stays as it is. */
  lemma FallbackBudget(c: Conversation, q: Request, l: Limits, t: Texts, m: Measure, s: Settings, written: Option<string>)
    requires Legal(l) && LegalSettings(s) && LegalRequest(q, l) && m.media(c).Some? && !ByResponses(c, q, l, m, s)
    requires var e := EffectiveFor(c, q, l, m, s);
      && e.mode.Summarizing? && LimitFor(c, q, l, m, s).Ok?
      && m.tokens(c) > Trigger(LimitFor(c, q, l, m, s).value, e)
      && SummarizedTo(c, t, m, Target(LimitFor(c, q, l, m, s).value, e), e, written).None?
    ensures OutputFor(c, q, l, t, m, s, written).Ok? <==>
      var limit := LimitFor(c, q, l, m, s).value;
      var k := LeastFit(c, m.tokens, limit, 0);
      s.fallback && (m.tokens(c) <= limit || (k.Some? && FitsWithMedia(Kept(c, k.value), q, l, m, s.margin)))
  {
    LimitLeavesRoom(c, q, l, m, s);
    FallbackPrepared(c, q, l, t, m, s, written);
    hide Kept, LeastFit, LimitFor, ByResponses, Scaled, SummarizedTo, PreparedFor, LegalSettings;
    var limit := LimitFor(c, q, l, m, s).value;
    var k := LeastFit(c, m.tokens, limit, 0);
    if m.tokens(c) <= limit {
      BudgetExactly(l, q.requested, m.tokens(c), m.media(c).value, s.margin);
    } else if k.Some? && m.media(Kept(c, k.value)).Some? {
      BudgetExactly(l, q.requested, m.tokens(Kept(c, k.value)), m.media(Kept(c, k.value)).value, s.margin);
    }
  }

  /** What is prepared without a usable summary. */
  lemma FallbackPrepared(c: Conversation, q: Request, l: Limits, t: Texts, m: Measure, s: Settings, written: Option<string>)
    requires m.media(c).Some? && !ByResponses(c, q, l, m, s)
    requires var e := EffectiveFor(c, q, l, m, s);
      && e.mode.Summarizing? && LimitFor(c, q, l, m, s).Ok?
      && m.tokens(c) > Trigger(LimitFor(c, q, l, m, s).value, e)
      && SummarizedTo(c, t, m, Target(LimitFor(c, q, l, m, s).value, e), e, written).None?
    ensures var limit := LimitFor(c, q, l, m, s).value;
      PreparedFor(c, q, l, t, m, s, written) ==
        if !s.fallback then Fail
        else if m.tokens(c) <= limit then Ok(Prepared(c, m.tokens(c), Unchanged))
        else TruncatedTo(c, m, limit)
  {
    hide Kept, LeastFit, LimitFor, ByResponses, Scaled, SummarizedTo, TruncatedTo;
  }

  lemma LimitLeavesRoom(c: Conversation, q: Request, l: Limits, m: Measure, s: Settings)
    requires LegalRequest(q, l) && m.media(c).Some? && LimitFor(c, q, l, m, s).Ok?
    ensures LimitFor(c, q, l, m, s).value + Wanted(q.requested) + m.media(c).value + s.margin <= l.window
  {}

  /** Whatever turns are dropped, with a summary in their place or not, the media beyond the prompt grow no larger. */
  ghost predicate MediaShrink(c: Conversation, m: Measure, t: Texts) {
    && m.media(c).Some?
    && (forall k: nat :: m.media(Kept(c, k)).Some? && m.media(Kept(c, k)).value <= m.media(c).value)
    && (forall k: nat, w: string, e: string, b: string, n: nat {:trigger Inject(t, Kept(c, k), w, e, b, n)} ::
      var d := Inject(t, Kept(c, k), w, e, b, n); m.media(d).Some? && m.media(d).value <= m.media(c).value)
  }

  /** Then every successful preparation leads to a budget. */
  lemma ShrinkingMediaSuffice(c: Conversation, q: Request, l: Limits, t: Texts, m: Measure, s: Settings, written: Option<string>)
    requires Legal(l) && LegalSettings(s) && LegalRequest(q, l) && MediaShrink(c, m, t)
    requires q.responses.Some? ==> s.mode == q.responses.value
    requires PreparedFor(c, q, l, t, m, s, written).Ok?
    ensures OutputFor(c, q, l, t, m, s, written).Ok?
  {
    hide PreparedFor, ByResponses, Inject, Kept, OutputFor, LegalSettings, LegalRequest, Legal;
    if !ByResponses(c, q, l, m, s) { PreparedShape(c, q, l, t, m, s, written); }
    MediaSuffice(c, q, l, t, m, s, written);
  }

  lemma MediaSuffice(c: Conversation, q: Request, l: Limits, t: Texts, m: Measure, s: Settings, written: Option<string>)
    requires Legal(l) && LegalSettings(s) && LegalRequest(q, l) && m.media(c).Some?
    requires q.responses.Some? ==> s.mode == q.responses.value
    requires PreparedFor(c, q, l, t, m, s, written).Ok?
    requires var d := PreparedFor(c, q, l, t, m, s, written).value.conversation;
      ByResponses(c, q, l, m, s) || (m.media(d).Some? && m.media(d).value <= m.media(c).value)
    ensures OutputFor(c, q, l, t, m, s, written).Ok?
  {
    hide PreparedFor, ByResponses, HasRoom;
    PreparedFits(c, q, l, t, m, s, written);
    var d := PreparedFor(c, q, l, t, m, s, written).value.conversation;
    BudgetExactly(l, q.requested, m.tokens(d), m.media(d).value, s.margin);
  }

  /** What is left of a conversation, perhaps with a summary in it. */
  ghost predicate Shape(c: Conversation, t: Texts, d: Conversation) {
    exists k: nat :: d == Kept(c, k) || Injected(t, Kept(c, k), d)
  }

  ghost predicate Injected(t: Texts, c: Conversation, d: Conversation) {
    exists w: string, e: string, b: string, n: nat :: d == Inject(t, c, w, e, b, n)
  }

  lemma PreparedShape(c: Conversation, q: Request, l: Limits, t: Texts, m: Measure, s: Settings, written: Option<string>)
    requires m.media(c).Some? && PreparedFor(c, q, l, t, m, s, written).Ok? && !ByResponses(c, q, l, m, s)
    ensures Shape(c, t, PreparedFor(c, q, l, t, m, s, written).value.conversation)
  {
    SelectAll(c, 0);
    assert Kept(c, 0) == c;
    hide Kept, LeastFit, ByResponses, LimitFor, EffectiveFor, Scaled, LeastSummary, Inject, Gone;
  }

  // ---------------------------------------------------------------- costs by item

  /**
   Costs by item of a message, an item being a character here: the tokens of its text, those of the
   placeholder that its template writes, and the estimate for the medium it stands for.
   */
  datatype Costs = Costs(text: char -> nat, place: char -> nat, estimate: char -> nat)

  function SumItems(f: char -> nat, s: string): nat {
    if s == "" then 0 else f(s[0]) + SumItems(f, s[1..])
  }

  function Sum(f: char -> nat, c: Conversation): nat {
    if c == [] then 0 else SumItems(f, c[0].content) + Sum(f, c[1..])
  }

  /** `_additional_media_tokens` without a vision policy: the estimate, less what the prompt holds beyond its text. */
  function MediaBeyondPrompt(estimate: nat, tokens: nat, textTokens: nat): nat {
    var embedded := Most(0, tokens - textTokens);
    Most(0, estimate - embedded)
  }

  function Tokens(costs: Costs, c: Conversation): nat {
    Sum(costs.text, c) + Sum(costs.place, c)
  }

  function ItemMeasure(costs: Costs): Measure {
    Measure(c => Tokens(costs, c), c => Some(MediaBeyondPrompt(Sum(costs.estimate, c), Tokens(costs, c), Sum(costs.text, c))))
  }

  /** No kind of media is estimated below its placeholder while another one is estimated above. */
  ghost predicate OneSided(costs: Costs) {
    (forall x :: costs.estimate(x) >= costs.place(x)) || (forall x :: costs.estimate(x) <= costs.place(x))
  }

  lemma {:induction false} SumItemsOrdered(f: char -> nat, g: char -> nat, s: string)
    requires forall x :: f(x) <= g(x)
    ensures SumItems(f, s) <= SumItems(g, s)
  {
    if s != "" { SumItemsOrdered(f, g, s[1..]); }
  }

  lemma {:induction false} SumOrdered(f: char -> nat, g: char -> nat, c: Conversation)
    requires forall x :: f(x) <= g(x)
    ensures Sum(f, c) <= Sum(g, c)
  {
    if c != [] {
      SumItemsOrdered(f, g, c[0].content);
      SumOrdered(f, g, c[1..]);
    }
  }

  lemma SumFirst(f: char -> nat, x: Message, c: Conversation)
    ensures Sum(f, [x] + c) == SumItems(f, x.content) + Sum(f, c)
  {
    assert ([x] + c)[1..] == c;
  }

  /** Messages kept and messages dropped share the costs. */
  lemma {:induction false} SumShared(f: char -> nat, c: Conversation, i: nat, k: nat)
    requires i <= |c|
    ensures Sum(f, Select(c, i, k, true)) + Sum(f, Select(c, i, k, false)) == Sum(f, c[i..])
    decreases |c| - i
  {
    if i < |c| {
      hide Stays;
      SumShared(f, c, i + 1, k);
      SumFirst(f, c[i], Select(c, i + 1, k, Stays(c, i, k)));
      assert [] + Select(c, i + 1, k, !Stays(c, i, k)) == Select(c, i + 1, k, !Stays(c, i, k));
      assert c[i..][1..] == c[i + 1..];
    }
  }

  lemma {:induction false} SumAppend(f: char -> nat, a: Conversation, b: Conversation)
    ensures Sum(f, a + b) == Sum(f, a) + Sum(f, b)
  {
    if a == [] {
      assert a + b == b;
    } else {
      assert (a + b)[0] == a[0] && (a + b)[1..] == a[1..] + b;
      SumAppend(f, a[1..], b);
    }
  }

  /** The texts that carry a summary stand for no media. */
  ghost predicate PlainTexts(costs: Costs, t: Texts) {
    && (forall b, n :: SumItems(costs.place, t.instruction(b, n)) == SumItems(costs.estimate, t.instruction(b, n)))
    && (forall w, e :: SumItems(costs.place, t.data(w, e)) == SumItems(costs.estimate, t.data(w, e)))
  }

  /** With such costs, a preparation that succeeds leads to a budget. */
  lemma OneSidedSuffices(costs: Costs, c: Conversation, q: Request, l: Limits, t: Texts, s: Settings, written: Option<string>)
    requires OneSided(costs) && PlainTexts(costs, t) && Legal(l) && LegalSettings(s) && LegalRequest(q, l)
    requires q.responses.Some? ==> s.mode == q.responses.value
    requires PreparedFor(c, q, l, t, ItemMeasure(costs), s, written).Ok?
    ensures OutputFor(c, q, l, t, ItemMeasure(costs), s, written).Ok?
  {
    var m := ItemMeasure(costs);
    assert m.media(c).Some?;
    hide PreparedFor, ItemMeasure, ByResponses, OneSided, PlainTexts, Shape, OutputFor, LegalSettings, LegalRequest, Legal;
    if !ByResponses(c, q, l, m, s) {
      PreparedShape(c, q, l, t, m, s, written);
      ItemsShrink(costs, c, t, PreparedFor(c, q, l, t, m, s, written).value.conversation);
    }
    MediaSuffice(c, q, l, t, m, s, written);
  }

  /** The surplus of the estimates over the placeholders. */
  lemma ItemsShrink(costs: Costs, c: Conversation, t: Texts, d: Conversation)
    requires OneSided(costs) && PlainTexts(costs, t) && Shape(c, t, d)
    ensures var m := ItemMeasure(costs); m.media(d).Some? && m.media(d).value <= m.media(c).value
  {
    var k: nat :| d == Kept(c, k) || Injected(t, Kept(c, k), d);
    var e := Kept(c, k);
    if d != e {
      var w: string, evidence: string, b: string, n: nat :| d == Inject(t, e, w, evidence, b, n);
      InjectedItems(costs, t, e, w, evidence, b, n);
    }
    assert c[0..] == c;
    SumShared(costs.estimate, c, 0, k);
    SumShared(costs.place, c, 0, k);
    hide Sum, Select, Inject, PlainTexts;
    if forall x :: costs.estimate(x) >= costs.place(x) {
      SumOrdered(costs.place, costs.estimate, e);
      SumOrdered(costs.place, costs.estimate, Select(c, 0, k, false));
    } else {
      SumOrdered(costs.estimate, costs.place, e);
    }
  }

  /** A summary adds as much to the placeholders as to the estimates. */
  lemma InjectedItems(costs: Costs, t: Texts, c: Conversation, w: string, e: string, b: string, n: nat)
    requires PlainTexts(costs, t)
    ensures var d := Inject(t, c, w, e, b, n); Sum(costs.estimate, d) + Sum(costs.place, c) == Sum(costs.place, d) + Sum(costs.estimate, c)
  {
    InjectedSum(costs.estimate, t, c, w, e, b, n);
    InjectedSum(costs.place, t, c, w, e, b, n);
  }

  lemma InjectedSum(f: char -> nat, t: Texts, c: Conversation, w: string, e: string, b: string, n: nat)
    ensures Sum(f, Inject(t, c, w, e, b, n)) == Sum(f, c) + SumItems(f, t.instruction(b, n)) + SumItems(f, t.data(w, e))
  {
    var i := LeadingSystems(c);
    var two := [Message(System, t.instruction(b, n)), Message(Assistant, t.data(w, e))];
    SumOfTwo(f, two[0], two[1]);
    hide Sum, SumItems, LeadingSystems;
    SumAppend(f, c[..i], two);
    SumAppend(f, c[..i] + two, c[i..]);
    SumAppend(f, c[..i], c[i..]);
    assert c[..i] + c[i..] == c;
  }

  /** `n` times the same item. */
  function Items(x: char, n: nat): (r: string)
    ensures |r| == n && forall i | 0 <= i < n :: r[i] == x
  {
    seq(n, i => x)
  }

  lemma {:induction false} SumAbove(f: char -> nat, g: char -> nat, s: string)
    requires forall x | x in s :: f(x) < g(x)
    ensures SumItems(f, s) + |s| <= SumItems(g, s)
  {
    if s != "" { SumAbove(f, g, s[1..]); }
  }

  lemma SumTwo(f: char -> nat, x: char)
    ensures SumItems(f, [x, x]) == 2 * f(x)
  {
    assert [x, x][1..] == [x] && [x][1..] == "";
    assert SumItems(f, [x]) == f(x);
  }

  lemma SumOfTwo(f: char -> nat, x: Message, y: Message)
    ensures Sum(f, [y]) == SumItems(f, y.content) && Sum(f, [x, y]) == SumItems(f, x.content) + SumItems(f, y.content)
  {
    assert [y][1..] == [] && [x, y][1..] == [y];
  }

  /** Of two user messages the older one may go. */
  lemma TwoTurns(x: Message, y: Message, cost: Conversation -> nat, limit: int)
    requires x.role.User? && y.role.User? && cost([x, y]) > limit && cost([y]) <= limit
    ensures LeastFit([x, y], cost, limit, 0) == Some(1) && Kept([x, y], 1) == [y]
  {
    var c := [x, y];
    LatestUserUnique(c, 1);
    SelectAll(c, 0);
    assert TurnBefore(c, 0) == None && TurnBefore(c, 1) == Some(0) && TurnCount(c) == 1;
    assert Kept(c, 1) == [y] by {
      assert !Stays(c, 0, 1) && Stays(c, 1, 1);
      assert Select(c, 2, 1, true) == [] && Select(c, 1, 1, true) == [y];
    }
    assert LeastFit(c, cost, limit, 1) == Some(1);
  }

  /**
   With any other costs it need not: an older message of `below` items, whose placeholders cover the
   estimate of the `above` items in the latest one, is dropped, and what remains does not fit.
   */
  lemma TruncationMayOverrun(costs: Costs, below: char, above: char, t: Texts, written: Option<string>)
    returns (c: Conversation, q: Request, l: Limits, s: Settings)
    requires costs.estimate(below) < costs.place(below) && costs.estimate(above) > costs.place(above)
    ensures Legal(l) && LegalSettings(s) && LegalRequest(q, l) && q.responses.None? && s.mode.Truncating?
    ensures PreparedFor(c, q, l, t, ItemMeasure(costs), s, written).Ok?
    ensures OutputFor(c, q, l, t, ItemMeasure(costs), s, written).Fail?
  {
    var m := ItemMeasure(costs);
    var surplus := 2 * (costs.estimate(above) - costs.place(above));
    var older, latest := Message(User, Items(below, surplus)), Message(User, [above, above]);
    c := [older, latest];
    var limit := 2 * costs.text(above) + 2 * costs.estimate(above) - 1;
    q, l := Request(Some(1), None, false), Limits(1, 1, limit + 1);
    s := Settings(Truncating, false, 0, 1.0, 1.0, 0, 0);
    TwoMessages(costs, older, latest, above, surplus);
    assert LimitFor(c, q, l, m, s) == Ok(limit) && !ByResponses(c, q, l, m, s);
    TwoTurns(older, latest, m.tokens, limit);
    TruncatedBudget(c, q, l, t, m, s, written);
    hide Kept, LeastFit;
    assert PreparedFor(c, q, l, t, m, s, written) == TruncatedTo(c, m, limit);
  }

  lemma TwoMessages(costs: Costs, older: Message, latest: Message, above: char, surplus: nat)
    requires costs.estimate(above) > costs.place(above) && surplus == 2 * (costs.estimate(above) - costs.place(above))
    requires latest.content == [above, above] && |older.content| == surplus
    requires forall x | x in older.content :: costs.estimate(x) < costs.place(x)
    ensures var m := ItemMeasure(costs);
      && m.media([older, latest]) == Some(0)
      && m.tokens([older, latest]) >= 2 * costs.text(above) + 2 * costs.estimate(above)
      && m.tokens([latest]) == 2 * costs.text(above) + 2 * costs.place(above)
      && m.media([latest]) == Some(surplus)
  {
    SumOfTwo(costs.text, older, latest);
    SumOfTwo(costs.place, older, latest);
    SumOfTwo(costs.estimate, older, latest);
    SumTwo(costs.text, above);
    SumTwo(costs.place, above);
    SumTwo(costs.estimate, above);
    SumAbove(costs.estimate, costs.place, older.content);
    hide Sum, SumItems;
  }

  predicate Admissible(q: Request, l: Limits, s: Settings) {
    Legal(l) && LegalSettings(s) && LegalRequest(q, l) && (q.responses.Some? ==> s.mode == q.responses.value)
  }

  /** Every preparation that succeeds leads to a budget. */
  ghost predicate AlwaysBudgeted(m: Measure, t: Texts) {
    forall c: Conversation, q: Request, l: Limits, s: Settings, written: Option<string> {:trigger OutputFor(c, q, l, t, m, s, written)} ::
      Admissible(q, l, s) && m.media(c).Some? && PreparedFor(c, q, l, t, m, s, written).Ok? ==> OutputFor(c, q, l, t, m, s, written).Ok?
  }

  /** With costs by item, that holds exactly if no kind of media is estimated below its placeholder while another one is estimated above. */
  lemma OneSidedExactly(costs: Costs, t: Texts)
    requires PlainTexts(costs, t)
    ensures AlwaysBudgeted(ItemMeasure(costs), t) <==> OneSided(costs)
  {
    var m := ItemMeasure(costs);
    hide PreparedFor, OutputFor, PlainTexts, Legal, LegalSettings, LegalRequest;
    if OneSided(costs) {
      forall c: Conversation, q: Request, l: Limits, s: Settings, written: Option<string>
        | Admissible(q, l, s) && m.media(c).Some? && PreparedFor(c, q, l, t, m, s, written).Ok?
        ensures OutputFor(c, q, l, t, m, s, written).Ok?
      {
        OneSidedSuffices(costs, c, q, l, t, s, written);
      }
    } else {
      var below :| costs.estimate(below) < costs.place(below);
      var above :| costs.estimate(above) > costs.place(above);
      var c, q, l, s := TruncationMayOverrun(costs, below, above, t, None);
      assert Admissible(q, l, s) && OutputFor(c, q, l, t, m, s, None).Fail?;
    }
  }
}
