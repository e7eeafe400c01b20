/**
 The flat scan for nesting depth that guards the JSON parser in
 backends/vllm_deepseek/checkpoint_preflight.py. Strings are those of section 7 of RFC 8259.
 */
module DepthScan {
  import opened Wrappers
  import opened DeepSeekJson

  datatype State = State(depth: int, quoted: bool, escaped: bool)

  const START_STATE := State(0, false, false)

  function Bracket(c: char): int {
    if c == '[' || c == '{' then 1 else if c == ']' || c == '}' then -1 else 0
  }

  /** The state after one character; `None` when the depth exceeds the limit. */
  function Next(s: State, c: char, limit: nat): Option<State> {
    if s.quoted then
      if s.escaped then Some(s.(escaped := false))
      else if c == '\\' then Some(s.(escaped := true))
      else if c == '"' then Some(s.(quoted := false))
      else Some(s)
    else if c == '"' then Some(s.(quoted := true))
    else if Bracket(c) == 1 && s.depth + 1 > limit then None
    else Some(s.(depth := s.depth + Bracket(c)))
  }

  function Scan(s: State, text: string, limit: nat): Option<State>
    decreases |text|
  {
    if text == "" then Some(s) else
      match Next(s, text[0], limit)
      case None => None
      case Some(t) => Scan(t, text[1..], limit)
  }

  /** The loop of `_parse`. */
  method CheckDepth(text: string, limit: nat) returns (ok: bool)
    ensures ok == Scan(START_STATE, text, limit).Some?
  {
    var depth, quoted, escaped := 0, false, false;
    assert text[0..] == text;
    for i := 0 to |text|
      invariant Scan(START_STATE, text, limit) == Scan(State(depth, quoted, escaped), text[i..], limit)
    {
      var c := text[i];
      assert text[i..][0] == c && text[i..][1..] == text[i + 1..];
      if quoted {
        if escaped {
          escaped := false;
        } else if c == '\\' {
          escaped := true;
        } else if c == '"' {
          quoted := false;
        }
      } else if c == '"' {
        quoted := true;
      } else if c == '[' || c == '{' {
        depth := depth + 1;
        if depth > limit { return false; }
      } else if c == ']' || c == '}' {
        depth := depth - 1;
      }
    }
    return true;
  }

  // ---------------------------------------------------------------- every text

  /** How many brackets are open before position `n`, not counting those in strings. */
  function OpenAt(text: string, n: nat): int
    requires n <= |text|
  {
    if n == 0 then 0
    else OpenAt(text, n - 1) + if Lexed(text, n - 1).0 then 0 else Bracket(text[n - 1])
  }

  function StateAt(text: string, n: nat): State
    requires n <= |text|
  {
    State(OpenAt(text, n), Lexed(text, n).0, Lexed(text, n).1)
  }

  lemma NextAt(text: string, n: nat, limit: nat)
    requires n < |text|
    ensures OpenAt(text, n + 1) <= limit ==> Next(StateAt(text, n), text[n], limit) == Some(StateAt(text, n + 1))
    ensures OpenAt(text, n + 1) > limit >= OpenAt(text, n) ==> Next(StateAt(text, n), text[n], limit) == None
  {
    NotEscapedOutside(text, n);
  }

  /** From position `n` on, nowhere are more brackets open than the limit. */
  predicate Shallow(text: string, n: nat, limit: nat) {
    forall k | n <= k <= |text| :: OpenAt(text, k) <= limit
  }

  lemma {:induction false} ScanAt(text: string, n: nat, limit: nat)
    requires n <= |text| && OpenAt(text, n) <= limit
    ensures Scan(StateAt(text, n), text[n..], limit).Some? <==> Shallow(text, n, limit)
    decreases |text| - n
  {
    if n < |text| {
      NextAt(text, n, limit);
      ScanOne(StateAt(text, n), text[n], text[n + 1..], limit);
      assert text[n..] == [text[n]] + text[n + 1..];
      hide StateAt, Next, Scan;
      if OpenAt(text, n + 1) <= limit {
        assert Scan(StateAt(text, n), text[n..], limit) == Scan(StateAt(text, n + 1), text[n + 1..], limit);
        ScanAt(text, n + 1, limit);
      } else {
        assert Scan(StateAt(text, n), text[n..], limit).None? && !Shallow(text, n, limit);
      }
    }
  }

  /** A text passes exactly when nowhere more brackets than the limit are open outside strings. */
  lemma DepthIsBounded(text: string, limit: nat)
    ensures Scan(START_STATE, text, limit).Some? <==> Shallow(text, 0, limit)
  {
    assert text[0..] == text && StateAt(text, 0) == START_STATE;
    ScanAt(text, 0, limit);
  }

  // ---------------------------------------------------------------- documents

  /** A character of a string as written: itself, or behind a backslash. */
  datatype Unit = Plain(c: char) | Escaped(c: char)

  /** A document: strings, and brackets around parts with other text (`lead`, `tail`) between them. */
  datatype Tree = Text(units: seq<Unit>) | Node(brace: bool, parts: Parts)

  datatype Parts = Last(tail: string) | Part(lead: string, tree: Tree, rest: Parts)

  predicate Bare(s: string) {
    forall k | 0 <= k < |s| :: s[k] != '"' && Bracket(s[k]) == 0
  }

  predicate LegalUnits(units: seq<Unit>) {
    forall k | 0 <= k < |units| :: units[k].Plain? ==> units[k].c != '"' && units[k].c != '\\'
  }

  predicate Legal(t: Tree) {
    match t
    case Text(units) => LegalUnits(units)
    case Node(_, parts) => LegalParts(parts)
  }

  predicate LegalParts(ps: Parts) {
    match ps
    case Last(tail) => Bare(tail)
    case Part(lead, tree, rest) => Bare(lead) && Legal(tree) && LegalParts(rest)
  }

  function PrintUnits(units: seq<Unit>, rest: string): string {
    if units == [] then rest
    else (if units[0].Plain? then [units[0].c] else ['\\', units[0].c]) + PrintUnits(units[1..], rest)
  }

  function Open(brace: bool): char { if brace then '{' else '[' }

  function Close(brace: bool): char { if brace then '}' else ']' }

  /** The document in front of `rest`. */
  function Print(t: Tree, rest: string): string {
    match t
    case Text(units) => ['"'] + PrintUnits(units, ['"'] + rest)
    case Node(brace, parts) => [Open(brace)] + PrintParts(parts, [Close(brace)] + rest)
  }

  function PrintParts(ps: Parts, rest: string): string {
    match ps
    case Last(tail) => tail + rest
    case Part(lead, tree, more) => lead + Print(tree, PrintParts(more, rest))
  }

  function Most(a: nat, b: nat): nat { if a < b then b else a }

  /** How deep brackets nest. */
  function Nest(t: Tree): nat {
    match t
    case Text(_) => 0
    case Node(_, parts) => 1 + NestParts(parts)
  }

  function NestParts(ps: Parts): nat {
    match ps
    case Last(_) => 0
    case Part(_, tree, rest) => Most(Nest(tree), NestParts(rest))
  }

  lemma {:induction false} ScanBare(d: int, s: string, rest: string, limit: nat)
    requires Bare(s)
    ensures Scan(State(d, false, false), s + rest, limit) == Scan(State(d, false, false), rest, limit)
  {
    if s == "" {
      assert s + rest == rest;
    } else {
      assert (s + rest)[1..] == s[1..] + rest;
      ScanBare(d, s[1..], rest, limit);
    }
  }

  lemma ScanOne(s: State, c: char, rest: string, limit: nat)
    ensures Scan(s, [c] + rest, limit) ==
      match Next(s, c, limit)
      case None => None
      case Some(t) => Scan(t, rest, limit)
  {
    assert ([c] + rest)[1..] == rest;
  }

  lemma {:induction false} ScanUnits(d: int, units: seq<Unit>, rest: string, limit: nat)
    requires LegalUnits(units)
    ensures Scan(State(d, true, false), PrintUnits(units, ['"'] + rest), limit) == Scan(State(d, false, false), rest, limit)
  {
    hide Scan;
    if units == [] {
      ScanOne(State(d, true, false), '"', rest, limit);
    } else {
      var more := PrintUnits(units[1..], ['"'] + rest);
      ScanUnits(d, units[1..], rest, limit);
      if units[0].Plain? {
        ScanOne(State(d, true, false), units[0].c, more, limit);
      } else {
        ScanOne(State(d, true, false), '\\', [units[0].c] + more, limit);
        ScanOne(State(d, true, true), units[0].c, more, limit);
        assert ['\\', units[0].c] + more == ['\\'] + ([units[0].c] + more);
      }
    }
  }

  /** Scanning a printed document at depth `d` fails if it nests too deep, and else goes on behind it at depth `d`. */
  predicate Scanned(before: Option<State>, after: Option<State>, d: int, nest: nat, limit: nat) {
    before == if d + nest > limit then None else after
  }

  lemma {:induction false} ScanTree(d: int, t: Tree, rest: string, limit: nat)
    requires Legal(t) && d <= limit
    ensures Scanned(Scan(State(d, false, false), Print(t, rest), limit), Scan(State(d, false, false), rest, limit), d, Nest(t), limit)
    decreases t
  {
    hide Scan;
    var s := State(d, false, false);
    match t
    case Text(units) =>
      ScanOne(s, '"', PrintUnits(units, ['"'] + rest), limit);
      ScanUnits(d, units, rest, limit);
    case Node(brace, parts) =>
      ScanOne(s, Open(brace), PrintParts(parts, [Close(brace)] + rest), limit);
      if d + 1 <= limit {
        ScanParts(d + 1, parts, [Close(brace)] + rest, limit);
        ScanOne(State(d + 1, false, false), Close(brace), rest, limit);
      }
  }

  lemma {:induction false} ScanParts(d: int, ps: Parts, rest: string, limit: nat)
    requires LegalParts(ps) && d <= limit
    ensures Scanned(Scan(State(d, false, false), PrintParts(ps, rest), limit), Scan(State(d, false, false), rest, limit),
                    d, NestParts(ps), limit)
    decreases ps
  {
    hide Scan;
    match ps
    case Last(tail) => ScanBare(d, tail, rest, limit);
    case Part(lead, tree, more) =>
      ScanBare(d, lead, Print(tree, PrintParts(more, rest)), limit);
      ScanTree(d, tree, PrintParts(more, rest), limit);
      ScanParts(d, more, rest, limit);
  }

  /** A printed document passes exactly when its brackets nest no deeper than the limit. */
  lemma DocumentsPass(t: Tree, limit: nat)
    requires Legal(t)
    ensures Scan(START_STATE, Print(t, ""), limit).Some? <==> Nest(t) <= limit
  {
    ScanTree(0, t, "", limit);
  }
}
