/**
 The streaming sanitizer of gateway/sanitizer.py: it remembers how far earlier scans of a growing
 text got, and still answers what a scan of the whole text would.
 */
module Streaming {
  import opened Wrappers
  import opened Text
  import opened Sanitizer

  // ---------------------------------------------------------------- what the cursors mean

  predicate NoMarker(s: string) {
    forall q | 0 <= q <= |s| :: !Marker(s, q)
  }

  /** No completion repeats, and every paragraph break before `r` is rejected for good. */
  predicate BreaksBefore(s: string, r: nat) {
    && r <= |RStrip(s)|
    && (forall i | 0 <= i < |RStrip(s)| && Paragraph(RStrip(s), i) :: Judge(RStrip(s), i) != Repeats)
    && (forall i | 0 <= i < r && Paragraph(RStrip(s), i) :: Judge(RStrip(s), i) == Differs)
  }

  /** `l` is the start of the last, still incomplete line. */
  predicate AtLastLine(s: string, l: nat) {
    l <= |s| && (l == 0 || s[l - 1] == '\n') && NextNewline(s, l) == |s|
  }

  /** `p` is the beginning of the text, or the newline in front of a completed line that is not blank. */
  predicate BeforeLastText(s: string, l: nat, p: nat)
    requires l <= |s|
  {
    p == 0 || (p < l && s[p] == '\n' && exists k | p < k < l :: !IsSpace(s[k]))
  }

  /** `t` is what trimming left of `whole`: all of it, or a part that ends in front of a space. */
  predicate TrimOf(t: string, whole: string) {
    t <= whole && (|t| < |whole| ==> IsSpace(whole[|t|]))
  }

  // ---------------------------------------------------------------- rejected breaks stay rejected

  lemma {:induction false} PrefixPositions(n: string, m: string, i: nat)
    requires n <= m && i < |n| && !IsSpace(n[|n| - 1])
    ensures RunStart(m, i) == RunStart(n, i)
    ensures SkipSpace(m, i) == SkipSpace(n, i) < |n|
  {
    RunStartUnique(m, i, RunStart(n, i));
    SkipSpaceUnique(m, i, SkipSpace(n, i));
  }

  /** A longer comparison that succeeds makes the shorter one succeed. */
  lemma ShorterComparison(n: string, m: string, tail: nat, p: nat, q: nat)
    requires n <= m && p <= q <= |m| && tail + p <= |n| && At(m, tail, m[..q])
    ensures At(n, tail, n[..p])
  {
    forall k | 0 <= k < p ensures n[tail..tail + p][k] == n[..p][k] {
      assert m[tail..tail + q][k] == m[..q][k];
    }
  }

  lemma DiffersForever(n: string, m: string, i: nat)
    requires n <= m && i < |n| && !IsSpace(n[|n| - 1])
    requires Paragraph(m, i)
    ensures Paragraph(n, i)
    ensures Judge(n, i) == Differs ==> Judge(m, i) == Differs
  {
    PrefixPositions(n, m, i);
    NextNewlineUnique(n, i + 1, NextNewline(m, i + 1));
    var head, tail := RunStart(n, i), SkipSpace(n, i);
    var q := Least(head, Least(|m| - tail, 96));
    if Judge(n, i) == Differs && head >= 80 && At(m, tail, m[..q]) {
      ShorterComparison(n, m, tail, Least(head, Least(|n| - tail, 96)), q);
    }
  }

  lemma RStripGrows(s: string, t: string)
    requires s <= t
    ensures RStrip(s) <= RStrip(t)
  {
    var n, m := RStrip(s), RStrip(t);
    assert n != "" ==> t[|n| - 1] == n[|n| - 1];
  }

  /** A scan that starts at the cursor finds the same first repetition as a scan from the start. */
  lemma ScanFromCursor(s: string, t: string, r: nat)
    requires s <= t && BreaksBefore(s, r)
    ensures r <= |RStrip(t)|
    ensures Search(Repetitions, RStrip(t), r) == Search(Repetitions, RStrip(t), 0)
    ensures forall i | 0 <= i < r && Paragraph(RStrip(t), i) :: Judge(RStrip(t), i) == Differs
  {
    RStripGrows(s, t);
    var n, m := RStrip(s), RStrip(t);
    forall i | 0 <= i < r && Paragraph(m, i) ensures Judge(m, i) == Differs {
      DiffersForever(n, m, i);
    }
    assert forall i | 0 <= i < r :: !Matches(Repetitions, m, i);
    SearchUnique(Repetitions, m, 0, Search(Repetitions, m, r));
  }

  // ---------------------------------------------------------------- markers in new text

  lemma OldLiteral(old_: string, t: string, q: nat, m: string)
    requires old_ <= t || t <= old_
    requires m in MARKERS && At(t, q, m) && q + |m| <= |old_|
    ensures q <= |old_| && Marker(old_, q)
  {
    assert old_[q..q + |m|] == t[q..q + |m|];
    assert At(old_, q, m);
  }

  /** A literal marker that the previous text did not contain starts in the overlap or later. */
  lemma NewLiteral(old_: string, t: string, q: nat)
    requires old_ <= t || t <= old_
    requires NoMarker(old_) && Literal(t, q)
    ensures q + 12 >= |old_|
  {
    var m :| m in MARKERS && At(t, q, m);
    assert |m| <= 13;
    if q + |m| <= |old_| { OldLiteral(old_, t, q, m); }
  }

  lemma RoleFrom(s: string, q: nat, e: nat, line: string)
    requires q <= e < |s| && (q == 0 || s[q - 1] == '\n') && NextNewline(s, q) == e
    requires s[q..e] == line && RoleLine(line)
    ensures Marker(s, q)
  {
    assert Role(s, q);
  }

  lemma OldRole(old_: string, t: string, q: nat)
    requires old_ <= t || t <= old_
    requires Role(t, q) && NextNewline(t, q) < |old_|
    ensures q <= |old_| && Marker(old_, q)
  {
    var e := NextNewline(t, q);
    var line := t[q..e];
    assert RoleLine(line);
    SameLine(old_, t, q, e);
    RoleFrom(old_, q, e, line);
  }

  lemma SameLine(s: string, t: string, q: nat, e: nat)
    requires s <= t || t <= s
    requires q <= e < |s| && e < |t| && NextNewline(t, q) == e
    ensures s[q..e] == t[q..e] && NextNewline(s, q) == e && (q > 0 ==> s[q - 1] == t[q - 1])
  {
    assert forall k | 0 <= k <= e :: s[k] == t[k];
    NextNewlineUnique(s, q, e);
  }

  /** A completed role line that is new ends in the new input and starts on the last line or later. */
  lemma NewRole(old_: string, t: string, l: nat, q: nat)
    requires old_ <= t || t <= old_
    requires NoMarker(old_) && AtLastLine(old_, l) && Role(t, q)
    ensures |old_| <= NextNewline(t, q) < |t| && l <= q
  {
    if NextNewline(t, q) < |old_| { OldRole(old_, t, q); }
    assert 0 < l <= |t| ==> t[l - 1] == old_[l - 1];
  }

  /** The position at which `/no_think` stands in a leaked prompt whose `user` is at `u`. */
  function NoThinkAt(s: string, u: nat): nat
    requires LeakBody(s, u)
  {
    SkipSpace(s, NextNewline(s, u + 4))
  }

  /** A leaked prompt of `t` that lies within the previous text was a leaked prompt there. */
  lemma OldLeak(whole: string, old_: string, t: string, u: nat)
    requires old_ <= whole && TrimOf(t, whole)
    requires LeakBody(t, u) && NoThinkAt(t, u) + 9 <= |old_|
    ensures LeakBody(old_, u)
  {
    hide NextNewline, SkipSpace;
    var e, w := NextNewline(t, u + 4), NoThinkAt(t, u);
    assert forall k | 0 <= k < |t| && k < |old_| :: t[k] == whole[k] == old_[k];
    NextNewlineUnique(old_, u + 4, e);
    SkipSpaceUnique(old_, e, w);
    if w + 9 < |old_| && w + 9 == |t| {
      assert old_[w + 9] == whole[w + 9];
    }
  }

  lemma OldLeakStart(whole: string, old_: string, t: string, p: nat)
    requires old_ <= whole && TrimOf(t, whole)
    requires Leak(t, p) && NoThinkAt(t, SkipSpace(t, p)) + 9 <= |old_|
    ensures p <= |old_| && Marker(old_, p)
  {
    var u := SkipSpace(t, p);
    OldLeak(whole, old_, t, u);
    assert forall k | 0 <= k < |t| && k < |old_| :: t[k] == whole[k] == old_[k];
    SkipSpaceUnique(old_, p, u);
  }

  /** A leaked prompt that is new reaches beyond the previous text. */
  lemma NewLeakReach(whole: string, old_: string, t: string, p: nat)
    requires old_ <= whole && TrimOf(t, whole)
    requires NoMarker(old_) && Leak(t, p)
    ensures NoThinkAt(t, SkipSpace(t, p)) + 9 > |old_|
  {
    if NoThinkAt(t, SkipSpace(t, p)) + 9 <= |old_| { OldLeakStart(whole, old_, t, p); }
  }

  lemma NoNewlineIn(t: string, i: nat, pat: string, c: nat)
    requires AtNoCase(t, i, pat) && i <= c < i + |pat| && '\n' !in pat
    ensures t[c] != '\n'
  {
    assert Lower(t[i + (c - i)]) == pat[c - i];
  }

  /** A leaked prompt whose `user` line precedes a completed line with text lies before that line's end. */
  lemma LeakEndsEarly(t: string, u: nat, c: nat, k: nat, end: nat)
    requires LeakBody(t, u) && u < c < k < end < |t|
    requires t[c] == '\n' && t[end] == '\n' && !IsSpace(t[k])
    ensures NoThinkAt(t, u) + 9 <= end
  {
    var w := NoThinkAt(t, u);
    if c < u + 4 { NoNewlineIn(t, u, "user", c); }
    assert NextNewline(t, u + 4) <= c && w <= k;
    if end < w + 9 { NoNewlineIn(t, w, "/no_think", end); }
  }

  /** The `user` line of a new leaked prompt is the last line with text before the new input, or later. */
  lemma NewLeakLine(whole: string, old_: string, t: string, l: nat, c: nat, p: nat)
    requires old_ <= whole && TrimOf(t, whole)
    requires NoMarker(old_) && AtLastLine(old_, l) && BeforeLastText(old_, l, c)
    requires Leak(t, p)
    ensures c <= SkipSpace(t, p)
  {
    var u := SkipSpace(t, p);
    NewLeakReach(whole, old_, t, p);
    assert forall k | 0 <= k < |t| && k < |old_| :: t[k] == whole[k] == old_[k];
    if u < c && l <= |t| {
      var k :| c < k < l && !IsSpace(old_[k]);
      LeakEndsEarly(t, u, c, k, l - 1);
    }
  }

  /** A search for leaked prompts from the cursor finds each new one, if not always at its first blank line. */
  lemma LeakFromCursor(whole: string, old_: string, t: string, l: nat, c: nat, p: nat) returns (q: nat)
    requires old_ <= whole && TrimOf(t, whole)
    requires NoMarker(old_) && AtLastLine(old_, l) && BeforeLastText(old_, l, c)
    requires Leak(t, p)
    ensures c <= q && p <= q <= |t| && Leak(t, q) && AllSpace(t, p, q)
  {
    NewLeakLine(whole, old_, t, l, c, p);
    if c <= p {
      q := p;
    } else {
      q := c;
      SkipSpaceUnique(t, c, SkipSpace(t, p));
      assert t[c] == whole[c] == old_[c];
    }
  }

  // ---------------------------------------------------------------- one search for new markers

  /** `/no_think` occurs in `t[from..]`, whatever its case. */
  predicate Mentions(t: string, from: nat) {
    exists w | from <= w <= |t| :: AtNoCase(t, w, "/no_think")
  }

  function Back(n: nat, k: nat): nat {
    if n < k then 0 else n - k
  }

  /** What `marker_index` computes from the cursors. */
  function CursorCut(old_: string, t: string, l: nat, c: nat): Option<nat> {
    var sequence := Search(AnySequence, t, Back(|old_|, 12));
    var role := if |old_| <= |t| && NextNewline(t, |old_|) < |t| then Search(RoleLines, t, l) else None;
    var leak := if Mentions(t, Back(|old_|, 9)) then Search(Leaks, t, c) else None;
    Earlier(Earlier(sequence, role), leak)
  }

  lemma FoundAt(p: Pattern, t: string, from: nat, q: nat)
    requires from <= q <= |t| && Matches(p, t, q)
    ensures var r := Search(p, t, from); r.Some? && r.value <= q
  {}

  lemma FoundMarker(p: Pattern, t: string, from: nat)
    requires p.AnySequence? || p.RoleLines? || p.Leaks?
    ensures var r := Search(p, t, from); r.Some? ==> r.value <= |t| && Marker(t, r.value)
  {
    var r := Search(p, t, from);
    if r.Some? { assert Matches(p, t, r.value); }
  }

  lemma CursorCutIsMarker(old_: string, t: string, l: nat, c: nat)
    ensures var cut := CursorCut(old_, t, l, c); cut.Some? ==> cut.value <= |t| && Marker(t, cut.value)
  {
    FoundMarker(AnySequence, t, Back(|old_|, 12));
    FoundMarker(RoleLines, t, l);
    FoundMarker(Leaks, t, c);
  }

  lemma EarlierIsLeast(old_: string, t: string, l: nat, c: nat)
    ensures var cut := CursorCut(old_, t, l, c);
      var sequence, role, leak := Search(AnySequence, t, Back(|old_|, 12)), Search(RoleLines, t, l), Search(Leaks, t, c);
      && (sequence.Some? ==> cut.Some? && cut.value <= sequence.value)
      && (role.Some? && |old_| <= |t| && NextNewline(t, |old_|) < |t| ==> cut.Some? && cut.value <= role.value)
      && (leak.Some? && Mentions(t, Back(|old_|, 9)) ==> cut.Some? && cut.value <= leak.value)
  {}

  /** For every marker of `t` the cursors find one that is not later, but for blank text between the two. */
  lemma CursorCutFinds(whole: string, old_: string, t: string, l: nat, c: nat, q: nat)
    requires old_ <= whole && TrimOf(t, whole)
    requires NoMarker(old_) && AtLastLine(old_, l) && BeforeLastText(old_, l, c)
    requires q <= |t| && Marker(t, q)
    ensures var cut := CursorCut(old_, t, l, c);
      cut.Some? && cut.value <= |t| && (cut.value <= q || AllSpace(t, q, cut.value))
  {
    CursorCutIsMarker(old_, t, l, c);
    EarlierIsLeast(old_, t, l, c);
    if Literal(t, q) {
      NewLiteral(old_, t, q);
      FoundAt(AnySequence, t, Back(|old_|, 12), q);
    } else if Role(t, q) {
      NewRole(old_, t, l, q);
      NewlineFrom(t, |old_|, NextNewline(t, q));
      FoundAt(RoleLines, t, l, q);
    } else {
      CursorLeakFinds(whole, old_, t, l, c, q);
    }
  }

  lemma CursorLeakFinds(whole: string, old_: string, t: string, l: nat, c: nat, q: nat)
    requires old_ <= whole && TrimOf(t, whole)
    requires NoMarker(old_) && AtLastLine(old_, l) && BeforeLastText(old_, l, c)
    requires Leak(t, q)
    ensures Mentions(t, Back(|old_|, 9))
    ensures var leak := Search(Leaks, t, c);
      leak.Some? && leak.value <= |t| && (leak.value <= q || AllSpace(t, q, leak.value))
  {
    hide *;
    LeakParts(t, q);
    var p := LeakFromCursor(whole, old_, t, l, c, q);
    NewLeakReach(whole, old_, t, q);
    var w := NoThinkAt(t, SkipSpace(t, q));
    BackBelow(|old_|, 9, w);
    Mentioned(t, Back(|old_|, 9), w);
    LeakParts(t, p);
    FoundAt(Leaks, t, c, p);
    SpaceUpTo(t, q, p);
  }

  lemma LeakParts(t: string, q: nat)
    requires Leak(t, q)
    ensures q <= |t| && LeakBody(t, SkipSpace(t, q)) && AtNoCase(t, NoThinkAt(t, SkipSpace(t, q)), "/no_think")
    ensures Matches(Leaks, t, q)
  {}

  lemma BackBelow(n: nat, k: nat, w: nat)
    requires w + k > n
    ensures Back(n, k) <= w
  {}

  lemma SpaceUpTo(t: string, q: nat, p: nat)
    requires q <= p <= |t| && AllSpace(t, q, p)
    ensures forall r: nat | q <= r <= p :: AllSpace(t, q, r)
  {}

  lemma NewlineFrom(t: string, i: nat, e: nat)
    requires i <= e < |t| && t[e] == '\n'
    ensures NextNewline(t, i) <= e
  {}

  lemma Mentioned(t: string, from: nat, w: nat)
    requires from <= w && AtNoCase(t, w, "/no_think")
    ensures Mentions(t, from)
  {}

  /** Cutting at the marker found from the cursors is cutting at the first marker of the whole text. */
  lemma CursorCutAgrees(whole: string, old_: string, t: string, l: nat, c: nat, stopped: bool)
    requires old_ <= whole && TrimOf(t, whole)
    requires NoMarker(old_) && AtLastLine(old_, l) && BeforeLastText(old_, l, c)
    ensures var cut := CursorCut(old_, t, l, c);
      && (cut.Some? ==> cut.value <= |t|)
      && Cut(t, stopped) == (if cut.Some? then (RStrip(t[..cut.value]), true) else (t, stopped))
    ensures CursorCut(old_, t, l, c).None? <==> NoMarker(t)
  {
    var cut, first := CursorCut(old_, t, l, c), Search(Markers, t, 0);
    CursorCutIsMarker(old_, t, l, c);
    if cut.Some? { FoundAt(Markers, t, 0, cut.value); }
    if first.Some? {
      assert Matches(Markers, t, first.value);
      CursorCutFinds(whole, old_, t, l, c, first.value);
      SameStrip(t, first.value, cut.value);
    } else {
      forall q | 0 <= q <= |t| ensures !Marker(t, q) { assert !Matches(Markers, t, q); }
    }
  }

  // ---------------------------------------------------------------- the sanitizer itself

  /** Trimming leaves the text without repetitions, or a part of it that ends in front of a space. */
  lemma TrimmedText(text: string, t: string, repeated: bool)
    requires (t, repeated) == Trimmed(text)
    ensures TrimOf(t, text)
    ensures !repeated ==>
      && t == text
      && forall i | 0 <= i < |RStrip(text)| && Paragraph(RStrip(text), i) :: Judge(RStrip(text), i) != Repeats
  {
    var n := RStrip(text);
    var found := Search(Repetitions, n, 0);
    if found.Some? {
      assert Matches(Repetitions, n, found.value);
    } else {
      forall i | 0 <= i < |n| && Paragraph(n, i) ensures Judge(n, i) != Repeats {
        assert !Matches(Repetitions, n, i);
      }
    }
  }

  lemma EmptyText()
    ensures NoMarker("") && BreaksBefore("", 0) && AtLastLine("", 0) && BeforeLastText("", 0, 0)
  {}

  /** Moving the cursors over one completed line. */
  lemma CompletedLine(t: string, l: nat, c: nat, e: nat)
    requires l <= e < |t| && t[e] == '\n' && (l == 0 || t[l - 1] == '\n')
    requires BeforeLastText(t, l, c)
    ensures BeforeLastText(t, e + 1, if SkipSpace(t, l) < e then Back(l, 1) else c)
  {
    var k := SkipSpace(t, l);
    if k < e && l > 0 {
      assert l - 1 < k < e + 1 && !IsSpace(t[k]);
    }
  }

  /** The cursors of a text serve a longer one that has no further newline yet. */
  lemma CursorsExtend(s: string, t: string, l: nat, c: nat)
    requires s <= t && AtLastLine(s, l) && BeforeLastText(s, l, c)
    ensures l <= |s| && (l == 0 || t[l - 1] == '\n') && NextNewline(t, l) >= |s| && BeforeLastText(t, l, c)
  {
    assert forall k | 0 <= k < |s| :: t[k] == s[k];
  }

  /** No newline is left from `from` on. */
  lemma OnLastLine(t: string, l: nat, from: nat)
    requires l <= from <= |t| && (l == 0 || t[l - 1] == '\n') && NextNewline(t, l) >= from && NextNewline(t, from) == |t|
    ensures AtLastLine(t, l)
  {
    NextNewlineUnique(t, l, |t|);
  }

  class StreamingSanitizer {
    var previous: string
    var repeatStart: nat
    var lineStart: nat
    var previousLineStart: nat
    var stopped: Option<(string, bool)>

    /** Unless the output is frozen, the cursors describe scans of `previous` that found nothing. */
    ghost predicate Valid()
      reads this
    {
      stopped.None? ==>
        && NoMarker(previous) && BreaksBefore(previous, repeatStart)
        && AtLastLine(previous, lineStart) && BeforeLastText(previous, lineStart, previousLineStart)
    }

    constructor ()
      ensures Valid() && previous == "" && stopped == None
    {
      previous, repeatStart, lineStart, previousLineStart, stopped := "", 0, 0, 0, None;
      new;
      EmptyText();
    }

    /** `prepare`: a text that does not extend the previous one starts the scans afresh. */
    method Prepare(text: string)
      requires Valid()
      modifies this
      ensures Valid() && previous <= text
      ensures old(previous) <= text ==> previous == old(previous) && stopped == old(stopped)
      ensures !(old(previous) <= text) ==> stopped == None
    {
      if !(previous <= text) {
        previous, repeatStart, lineStart, previousLineStart, stopped := "", 0, 0, 0, None;
        EmptyText();
      }
    }

    /** `marker_index`: searches where new input can complete a marker, then moves the line cursors. */
    method MarkerIndex(text: string) returns (cut: Option<nat>)
      requires AtLastLine(previous, lineStart) && BeforeLastText(previous, lineStart, previousLineStart)
      modifies `lineStart, `previousLineStart
      ensures cut == CursorCut(previous, text, old(lineStart), old(previousLineStart))
      ensures previous <= text ==> AtLastLine(text, lineStart) && BeforeLastText(text, lineStart, previousLineStart)
    {
      var oldLength := |previous|;
      cut := FindLiteral(text, Back(oldLength, 12));
      if oldLength <= |text| && NextNewline(text, oldLength) < |text| {
        cut := Earlier(cut, Search(RoleLines, text, lineStart));
      }
      if Mentions(text, Back(oldLength, 9)) {
        cut := Earlier(cut, Search(Leaks, text, previousLineStart));
      }
      assert cut == CursorCut(previous, text, lineStart, previousLineStart);
      if previous <= text {
        MoveCursors(text);
      }
    }

    /** The loop over the new newlines: keeps the start of the last line and of the last text before it. */
    method MoveCursors(text: string)
      requires previous <= text
      requires AtLastLine(previous, lineStart) && BeforeLastText(previous, lineStart, previousLineStart)
      modifies `lineStart, `previousLineStart
      ensures AtLastLine(text, lineStart) && BeforeLastText(text, lineStart, previousLineStart)
    {
      hide *;
      CursorsExtend(previous, text, lineStart, previousLineStart);
      var from := |previous|;
      while NextNewline(text, from) < |text|
        invariant from <= |text| && lineStart <= from
        invariant lineStart == 0 || text[lineStart - 1] == '\n'
        invariant NextNewline(text, lineStart) >= from
        invariant BeforeLastText(text, lineStart, previousLineStart)
        decreases |text| - from
      {
        var newline := NextNewline(text, from);
        CompletedLine(text, lineStart, previousLineStart, newline);
        if SkipSpace(text, lineStart) < newline {
          previousLineStart := Back(lineStart, 1);
        }
        lineStart := newline + 1;
        from := newline + 1;
      }
      OnLastLine(text, lineStart, from);
    }

    /**
     `sanitize` from the cleaned text on. Unless it stopped at a prefix of this text before, the
     answer is the stateless sanitizer's; once it has stopped, the answer never changes.
     */
    method Sanitize(text: string, thinking: bool) returns (out: string, stop: bool)
      requires Valid()
      modifies this
      ensures Valid()
      ensures old(stopped).Some? && old(previous) <= text ==>
        (out, stop) == old(stopped).value && previous == old(previous) && stopped == old(stopped)
      ensures !(old(stopped).Some? && old(previous) <= text) ==>
        && (out, stop) == Stateless(text, thinking)
        && previous == text && stopped == (if stop then Some((out, stop)) else None)
    {
      hide NoMarker, AtLastLine, BeforeLastText, TrimOf, CursorCut, Search, RStrip;
      Prepare(text);
      if stopped.Some? {
        return stopped.value.0, stopped.value.1;
      }
      ScanFromCursor(previous, text, repeatStart);
      var t, repeated, next := Trim(text, repeatStart);
      TrimmedText(text, t, repeated);
      CursorCutAgrees(text, previous, t, lineStart, previousLineStart, thinking || repeated);
      var cut := MarkerIndex(t);
      previous := text;
      repeatStart := next;
      if cut.Some? {
        out, stop := RStrip(t[..cut.value]), true;
      } else {
        out, stop := t, thinking || repeated;
      }
      if stop {
        stopped := Some((out, stop));
      }
    }
  }

  // ---------------------------------------------------------------- a whole stream

  predicate Growing(texts: seq<string>) {
    forall j, k | 0 <= j < k < |texts| :: texts[j] <= texts[k]
  }

  /** The stateless sanitizer stops at none of the first `n` texts. */
  predicate NoStop(texts: seq<string>, thinking: seq<bool>, n: nat)
    requires n <= |texts| == |thinking|
  {
    forall j | 0 <= j < n :: !Stateless(texts[j], thinking[j]).1
  }

  /**
   On every growing stream the streaming sanitizer answers like the stateless one up to and
   including the first stop, and repeats that answer ever after.
   */
  method SanitizeStream(texts: seq<string>, thinking: seq<bool>) returns (outs: seq<(string, bool)>)
    requires |texts| == |thinking| && Growing(texts)
    ensures |outs| == |texts|
    ensures forall i | 0 <= i < |texts| && NoStop(texts, thinking, i) :: outs[i] == Stateless(texts[i], thinking[i])
    ensures forall f, i | 0 <= f <= i < |texts| && NoStop(texts, thinking, f) && Stateless(texts[f], thinking[f]).1 ::
      outs[i] == Stateless(texts[f], thinking[f])
  {
    hide Stateless;
    outs := [];
    var sanitizer := new StreamingSanitizer();
    ghost var first: Option<nat> := None;
    for i := 0 to |texts|
      invariant |outs| == i && sanitizer.Valid() && fresh(sanitizer)
      invariant first.None? ==> NoStop(texts, thinking, i) && sanitizer.stopped == None
      invariant first.Some? ==>
        && first.value < i && NoStop(texts, thinking, first.value) && Stateless(texts[first.value], thinking[first.value]).1
        && sanitizer.previous == texts[first.value]
        && sanitizer.stopped == Some(Stateless(texts[first.value], thinking[first.value]))
      invariant forall k | 0 <= k < i ::
        outs[k] == if first.Some? && first.value < k then Stateless(texts[first.value], thinking[first.value])
                   else Stateless(texts[k], thinking[k])
    {
      var out, stop := sanitizer.Sanitize(texts[i], thinking[i]);
      if first.None? && stop { first := Some(i); }
      outs := outs + [(out, stop)];
    }
  }
}
