/**
 Cutting generated text at chat markers and repeated completions (gateway/sanitizer.py): the
 patterns, and the sanitizer that looks at the whole text every time.
 */
module Sanitizer {
  import opened Wrappers
  import opened Text

  const MARKERS: seq<string> := [
    "<|im_end|>",
    "<|im_start|>",
    "\nuser\n",
    "\nUser\n",
    "\nassistant\n",
    "\nAssistant\n",
    "\n[user]\n",
    "\n[User]\n",
    "\n[assistant]\n",
    "\n[Assistant]\n"
  ]

  const ROLES: seq<string> := ["user", "assistant", "asistant", "system"]

  // ---------------------------------------------------------------- patterns

  /** A literal stop sequence starts at `q`. */
  predicate Literal(s: string, q: nat) {
    exists m | m in MARKERS :: At(s, q, m)
  }

  function SkipBlank(s: string, i: nat): (r: nat)
    requires i <= |s|
    ensures i <= r <= |s|
    decreases |s| - i
  {
    if i < |s| && (s[i] == ' ' || s[i] == '\t') then SkipBlank(s, i + 1) else i
  }

  function SkipOptional(s: string, i: nat, c: char): (r: nat)
    requires i <= |s|
    ensures i <= r <= |s|
  {
    if i < |s| && s[i] == c then i + 1 else i
  }

  /** The end of a role line after its role: an optional `]`, an optional `:`, blanks. */
  predicate RoleTail(line: string, i: nat)
    requires i <= |line|
  {
    SkipBlank(line, SkipOptional(line, SkipBlank(line, SkipOptional(line, SkipBlank(line, i), ']')), ':')) == |line|
  }

  /** A line that consists of a chat role, in brackets or not, with or without a colon. */
  predicate RoleLine(line: string) {
    var i := SkipBlank(line, SkipOptional(line, SkipBlank(line, 0), '['));
    exists w | w in ROLES :: AtNoCase(line, i, w) && RoleTail(line, i + |w|)
  }

  /** A completed role line starts at `q`. */
  predicate Role(s: string, q: nat) {
    && q <= |s| && (q == 0 || s[q - 1] == '\n')
    && NextNewline(s, q) < |s|
    && RoleLine(s[q..NextNewline(s, q)])
  }

  predicate IsWord(c: char) {
    'a' <= c <= 'z' || 'A' <= c <= 'Z' || '0' <= c <= '9' || c == '_'
  }

  /** `/no_think` as a whole word at `w`. */
  predicate NoThink(s: string, w: nat) {
    AtNoCase(s, w, "/no_think") && (w + 9 == |s| || !IsWord(s[w + 9]))
  }

  /** A line that opens with `user` at `u`, followed by a line that opens with `/no_think`. */
  predicate LeakBody(s: string, u: nat) {
    && AtNoCase(s, u, "user")
    && var e := NextNewline(s, u + 4);
    && e < |s| && e - (u + 4) <= 160
    && NoThink(s, SkipSpace(s, e))
  }

  /** A leaked prompt starts at `p`: the beginning of the text, or a newline. */
  predicate Leak(s: string, p: nat) {
    p <= |s| && (p == 0 || (p < |s| && s[p] == '\n')) && LeakBody(s, SkipSpace(s, p))
  }

  predicate Marker(s: string, q: nat) {
    Literal(s, q) || Role(s, q) || Leak(s, q)
  }

  // ---------------------------------------------------------------- repeated completions

  /** A paragraph break starts at `i`: a newline with another one in the same run of spaces. */
  predicate Paragraph(n: string, i: nat) {
    i < |n| && n[i] == '\n' && NextNewline(n, i + 1) < SkipSpace(n, i)
  }

  function Least(a: nat, b: nat): nat {
    if a <= b then a else b
  }

  datatype Verdict = Repeats | Differs | TooShort

  /** Whether the text after the break at `i` starts like the whole text. */
  function Judge(n: string, i: nat): Verdict
    requires i <= |n|
  {
    var head, tail := RunStart(n, i), SkipSpace(n, i);
    if head < 80 then Differs
    else if |n| - tail < 32 then TooShort
    else if At(n, tail, n[..Least(head, Least(|n| - tail, 96))]) then Repeats
    else Differs
  }

  predicate RepeatAt(n: string, i: nat) {
    Paragraph(n, i) && Judge(n, i) == Repeats
  }

  // ---------------------------------------------------------------- searching

  /** What the sanitizer searches for. */
  datatype Pattern = Sequence(m: string) | AnySequence | RoleLines | Leaks | Markers | Breaks | Repetitions

  predicate Matches(p: Pattern, s: string, q: nat) {
    match p
    case Sequence(m) => At(s, q, m)
    case AnySequence => Literal(s, q)
    case RoleLines => Role(s, q)
    case Leaks => Leak(s, q)
    case Markers => Marker(s, q)
    case Breaks => Paragraph(s, q)
    case Repetitions => RepeatAt(s, q)
  }

  /** `find` and `search`: the least position from `from` on at which the pattern matches. */
  function Search(p: Pattern, s: string, from: nat): (r: Option<nat>)
    ensures r.Some? ==> from <= r.value <= |s| && Matches(p, s, r.value) && forall q | from <= q < r.value :: !Matches(p, s, q)
    ensures r.None? ==> forall q | from <= q <= |s| :: !Matches(p, s, q)
    decreases |s| - from
  {
    if from > |s| then None
    else if Matches(p, s, from) then Some(from)
    else Search(p, s, from + 1)
  }

  /** The least match is the only match without a smaller one. */
  lemma SearchUnique(p: Pattern, s: string, from: nat, r: Option<nat>)
    requires r.Some? ==> from <= r.value <= |s| && Matches(p, s, r.value)
    requires forall q | from <= q <= |s| && Matches(p, s, q) :: r.Some? && r.value <= q
    ensures Search(p, s, from) == r
  {
  }

  // ---------------------------------------------------------------- the stateless sanitizer

  /** `_trim_repeated_completion` without a state. */
  function Trimmed(text: string): (string, bool) {
    var n := RStrip(text);
    match Search(Repetitions, n, 0)
    case Some(i) => (n[..RunStart(n, i)], true)
    case None => (text, false)
  }

  function Cut(text: string, stopped: bool): (string, bool) {
    match Search(Markers, text, 0)
    case Some(c) => (RStrip(text[..c]), true)
    case None => (text, stopped)
  }

  /** `sanitize_generated_text` from the cleaned text on; `thinking` says that cleaning stopped at a tag. */
  function Stateless(text: string, thinking: bool): (string, bool) {
    var (t, repeated) := Trimmed(text);
    Cut(t, thinking || repeated)
  }

  /** The smaller of two match positions. */
  function Earlier(a: Option<nat>, b: Option<nat>): Option<nat> {
    if a.None? then b else if b.None? || a.value <= b.value then a else b
  }

  /** The earliest stop sequence at or after `start`, found one sequence at a time. */
  method FindLiteral(text: string, start: nat) returns (cut: Option<nat>)
    ensures cut == Search(AnySequence, text, start)
  {
    cut := None;
    for k := 0 to |MARKERS|
      invariant cut.Some? ==> start <= cut.value <= |text| && Literal(text, cut.value)
      invariant forall q, j | start <= q <= |text| && 0 <= j < k && At(text, q, MARKERS[j]) :: cut.Some? && cut.value <= q
    {
      var found := Search(Sequence(MARKERS[k]), text, start);
      assert forall q | start <= q <= |text| && At(text, q, MARKERS[k]) ::
          found.Some? && found.value <= q by {
        assert forall q :: At(text, q, MARKERS[k]) == Matches(Sequence(MARKERS[k]), text, q);
      }
      cut := Earlier(cut, found);
    }
    SearchUnique(AnySequence, text, start, cut);
  }

  /** `_find_chat_marker_index`. */
  method FindChatMarkerIndex(text: string) returns (cut: Option<nat>)
    ensures cut == Search(Markers, text, 0)
  {
    var sequence := FindLiteral(text, 0);
    var role := Search(RoleLines, text, 0);
    var leak := Search(Leaks, text, 0);
    cut := Earlier(Earlier(sequence, role), leak);
    EarliestMarker(text, sequence, role, leak);
  }

  lemma EarliestMarker(text: string, sequence: Option<nat>, role: Option<nat>, leak: Option<nat>)
    requires sequence == Search(AnySequence, text, 0) && role == Search(RoleLines, text, 0) && leak == Search(Leaks, text, 0)
    ensures Earlier(Earlier(sequence, role), leak) == Search(Markers, text, 0)
  {
    var cut := Earlier(Earlier(sequence, role), leak);
    forall q | 0 <= q <= |text| && Matches(Markers, text, q)
      ensures cut.Some? && cut.value <= q
    {
      assert Matches(AnySequence, text, q) || Matches(RoleLines, text, q) || Matches(Leaks, text, q);
    }
    SearchUnique(Markers, text, 0, cut);
  }

  /** The end of the match of a paragraph break: just after the last newline of its run. */
  function ParagraphEnd(n: string, i: nat): (r: nat)
    requires Paragraph(n, i)
    ensures i + 2 <= r <= SkipSpace(n, i) && n[r - 1] == '\n'
    ensures forall k | r <= k < SkipSpace(n, i) :: n[k] != '\n'
  {
    LastNewline(n, i + 1, SkipSpace(n, i)) + 1
  }

  /** The last newline in `n[i..j]`. */
  function LastNewline(n: string, i: nat, j: nat): (r: nat)
    requires i <= j <= |n| && NextNewline(n, i) < j
    ensures i <= r < j && n[r] == '\n' && forall k | r < k < j :: n[k] != '\n'
    decreases j
  {
    if n[j - 1] == '\n' then j - 1 else LastNewline(n, i, j - 1)
  }

  /** Both positions lie in one run of spaces, so a break there gets the same verdict. */
  lemma SameRun(n: string, i: nat, k: nat)
    requires i <= k <= |n| && AllSpace(n, i, k)
    ensures RunStart(n, i) == RunStart(n, k) && SkipSpace(n, i) == SkipSpace(n, k)
    ensures Judge(n, i) == Judge(n, k)
  {
    RunStartUnique(n, k, RunStart(n, i));
    SkipSpaceUnique(n, i, SkipSpace(n, k));
  }

  /** One verdict for all breaks of a run, reached from the end of the match. */
  lemma JudgeBreak(n: string, i: nat)
    requires Paragraph(n, i)
    ensures var end := ParagraphEnd(n, i);
      && (forall k | i <= k < end :: Judge(n, k) == Judge(n, i))
      && SkipSpace(n, end) == SkipSpace(n, i)
  {
    var end := ParagraphEnd(n, i);
    forall k | i <= k <= end ensures Judge(n, k) == Judge(n, i) { SameRun(n, i, k); }
    SameRun(n, i, end);
  }

  lemma NextBreak(n: string, pos: nat)
    requires pos <= |n|
    ensures var found := Search(Breaks, n, pos);
      && (found.Some? ==> Paragraph(n, found.value))
      && forall k | pos <= k < (if found.Some? then found.value else |n|) :: !Paragraph(n, k)
  {
    assert forall k :: Matches(Breaks, n, k) == Paragraph(n, k);
  }

  lemma FirstRepetition(n: string, from: nat, pos: nat, i: nat)
    requires from <= pos <= i <= |n|
    requires forall k | from <= k < pos && Paragraph(n, k) :: Judge(n, k) != Repeats
    requires forall k | pos <= k < i :: !Paragraph(n, k)
    ensures RepeatAt(n, i) ==> Search(Repetitions, n, from) == Some(i)
    ensures i == |n| ==> Search(Repetitions, n, from) == None
  {
    forall k | from <= k < i ensures !Matches(Repetitions, n, k) {}
    if RepeatAt(n, i) {
      assert Matches(Repetitions, n, i);
      SearchUnique(Repetitions, n, from, Some(i));
    } else if i == |n| {
      SearchUnique(Repetitions, n, from, None);
    }
  }

  /**
   `_trim_repeated_completion` from break position `from` on. It looks at each run of spaces
   once, and remembers in `next` the first break whose tail was too short to decide.
   */
  method Trim(text: string, from: nat) returns (out: string, repeated: bool, next: nat)
    requires from <= |RStrip(text)|
    ensures var n := RStrip(text);
      && repeated == Search(Repetitions, n, from).Some?
      && out == (if repeated then n[..RunStart(n, Search(Repetitions, n, from).value)] else text)
      && from <= next <= |n|
      && (!repeated ==> forall i | from <= i < next && Paragraph(n, i) :: Judge(n, i) == Differs)
  {
    var n := RStrip(text);
    next := |n|;
    var pos := from;
    while true
      invariant from <= pos <= |n| && from <= next <= |n|
      invariant forall k | from <= k < pos && Paragraph(n, k) :: Judge(n, k) != Repeats
      invariant forall k | from <= k < pos && k < next && Paragraph(n, k) :: Judge(n, k) == Differs
      decreases |n| - pos
    {
      var found := Search(Breaks, n, pos);
      NextBreak(n, pos);
      if found.None? {
        FirstRepetition(n, from, pos, |n|);
        return text, false, next;
      }
      var i := found.value;
      FirstRepetition(n, from, pos, i);
      var end := ParagraphEnd(n, i);
      JudgeBreak(n, i);
      var head, tail := RunStart(n, i), SkipSpace(n, end);
      var length := |n| - tail;
      if head >= 80 && length < 32 {
        next := Least(next, i);
      } else if head >= 80 && At(n, tail, n[..Least(head, Least(length, 96))]) {
        return n[..head], true, from;
      }
      pos := end;
    }
  }

  method Sanitize(text: string, thinking: bool) returns (out: string, stop: bool)
    ensures (out, stop) == Stateless(text, thinking)
  {
    var t, repeated, _ := Trim(text, 0);
    var cut := FindChatMarkerIndex(t);
    if cut.None? {
      return t, thinking || repeated;
    }
    return RStrip(t[..cut.value]), true;
  }
}
