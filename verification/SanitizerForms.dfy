/**
 What the sanitizer's patterns match, told by putting texts together, and what the stateless
 sanitizer therefore answers (gateway/sanitizer.py).
 */
module SanitizerForms {
  import opened Wrappers
  import opened Text
  import opened Sanitizer

  // ---------------------------------------------------------------- role lines

  predicate Blank(c: char) { c == ' ' || c == '\t' }

  predicate Blanks(s: string) { forall k | 0 <= k < |s| :: Blank(s[k]) }

  predicate Spaces(s: string) { forall k | 0 <= k < |s| :: IsSpace(s[k]) }

  predicate IsRole(w: string) { w in ROLES }

  /** The same word up to ASCII case; `word` is in lower case. */
  predicate Same(s: string, word: string) {
    |s| == |word| && forall k | 0 <= k < |word| :: Lower(s[k]) == word[k]
  }

  /** The end of a role line: blanks, perhaps a bracket, blanks, perhaps a colon, blanks. */
  datatype Tail = Tail(b2: string, close: bool, b3: string, colon: bool, b4: string)

  /** A role line: blanks, perhaps a bracket, blanks, a role, and its end. */
  datatype RoleParts = RoleParts(b0: string, open: bool, b1: string, word: string, tail: Tail)

  predicate LegalTail(t: Tail) {
    Blanks(t.b2) && Blanks(t.b3) && Blanks(t.b4)
  }

  ghost predicate LegalRole(p: RoleParts) {
    Blanks(p.b0) && Blanks(p.b1) && (exists w | IsRole(w) :: Same(p.word, w)) && LegalTail(p.tail)
  }

  function SpellTail(t: Tail): string {
    t.b2 + ((if t.close then "]" else "") + (t.b3 + ((if t.colon then ":" else "") + t.b4)))
  }

  function SpellRole(p: RoleParts): string {
    p.b0 + ((if p.open then "[" else "") + (p.b1 + (p.word + SpellTail(p.tail))))
  }

  lemma {:induction false} SkipBlankIs(s: string, i: nat, r: nat)
    requires i <= r <= |s| && (forall k | i <= k < r :: Blank(s[k])) && (r < |s| ==> !Blank(s[r]))
    ensures SkipBlank(s, i) == r
    decreases r - i
  {
    if i < r { SkipBlankIs(s, i + 1, r); }
  }

  lemma {:induction false} SkipBlankSkips(s: string, i: nat)
    requires i <= |s|
    ensures var r := SkipBlank(s, i); Blanks(s[i..r]) && (r < |s| ==> !Blank(s[r]))
    decreases |s| - i
  {
    if i < |s| && Blank(s[i]) {
      SkipBlankSkips(s, i + 1);
      var r := SkipBlank(s, i);
      assert s[i..r] == [s[i]] + s[i + 1..r];
    }
  }

  // Where the rest of a text stands, and how it goes on: said with predicates, to be hidden where many meet.

  predicate Rest(s: string, i: nat, rest: string) { i <= |s| && s[i..] == rest }

  predicate Cat(whole: string, front: string, rest: string) { whole == front + rest }

  predicate NoBlank(rest: string) { rest != "" ==> !Blank(rest[0]) }

  predicate NoSpace(rest: string) { rest != "" ==> !IsSpace(rest[0]) }

  /** What begins with `front` at `i` goes on behind it. */
  lemma Onward(s: string, i: nat, whole: string, front: string, rest: string)
    requires Rest(s, i, whole) && Cat(whole, front, rest)
    ensures At(s, i, front) && i + |front| <= |s| && Rest(s, i + |front|, rest)
  {
    assert s[i..i + |front|] == s[i..][..|front|] == front;
    assert s[i + |front|..] == s[i..][|front|..] == rest;
  }

  lemma RestFirst(s: string, i: nat, rest: string)
    requires Rest(s, i, rest)
    ensures i <= |s| && (rest != "" ==> i < |s| && s[i] == rest[0]) && (rest == "" ==> i == |s|)
  {}

  lemma TakeBlanks(s: string, i: nat, whole: string, b: string, rest: string)
    requires Rest(s, i, whole) && Cat(whole, b, rest) && Blanks(b) && NoBlank(rest)
    ensures i <= i + |b| <= |s| && SkipBlank(s, i) == i + |b| && Rest(s, i + |b|, rest)
  {
    Onward(s, i, whole, b, rest);
    RestFirst(s, i + |b|, rest);
    forall k | i <= k < i + |b| ensures Blank(s[k]) { AtChar(s, i, b, k - i); }
    SkipBlankIs(s, i, i + |b|);
  }

  /** An optional mark. */
  function Mark(c: char, there: bool): string {
    if there then [c] else ""
  }

  predicate NoMark(c: char, there: bool, rest: string) { !there ==> rest == "" || rest[0] != c }

  lemma TakeMark(s: string, i: nat, c: char, there: bool, whole: string, rest: string)
    requires Rest(s, i, whole) && Cat(whole, Mark(c, there), rest) && NoMark(c, there, rest)
    ensures var j := i + |Mark(c, there)|; i <= j <= |s| && SkipOptional(s, i, c) == j && Rest(s, j, rest)
  {
    Onward(s, i, whole, Mark(c, there), rest);
    RestFirst(s, i + |Mark(c, there)|, rest);
    if there { AtChar(s, i, [c], 0); }
  }

  lemma BlanksJoin(a: string, b: string)
    requires Blanks(a) && Blanks(b)
    ensures Blanks(a + b)
  {}

  /** Without its bracket or its colon, the blanks around a missing mark are one stretch. */
  function Closed(t: Tail): Tail {
    if t.close && t.colon then t
    else if t.close then Tail(t.b2, true, t.b3 + t.b4, false, "")
    else if t.colon then Tail(t.b2 + t.b3, false, "", true, t.b4)
    else Tail(t.b2 + t.b3 + t.b4, false, "", false, "")
  }

  lemma ClosedSame(t: Tail)
    requires LegalTail(t)
    ensures LegalTail(Closed(t)) && SpellTail(Closed(t)) == SpellTail(t)
    ensures var c := Closed(t); (!c.close ==> c.b3 == "") && (!c.colon ==> c.b4 == "")
  {
    if t.close && !t.colon {
      BlanksJoin(t.b3, t.b4);
    } else if !t.close && t.colon {
      BlanksJoin(t.b2, t.b3);
      Regroup(t.b2, t.b3, ":" + t.b4);
    } else if !t.close {
      BlanksJoin(t.b2, t.b3);
      BlanksJoin(t.b2 + t.b3, t.b4);
      Regroup(t.b2, t.b3, t.b4);
    }
  }

  lemma Regroup(a: string, b: string, c: string)
    ensures a + (b + c) == (a + b) + c && "" + c == c && c + "" == c && a + b + "" == a + b
  {}

  lemma TailReads(line: string, i: nat, t: Tail)
    requires Rest(line, i, SpellTail(t)) && LegalTail(t)
    ensures i <= |line| && RoleTail(line, i)
  {
    ClosedSame(t);
    TailReadsClosed(line, i, Closed(t));
  }

  // What is left of such an end behind its blanks, behind its bracket, and behind the blanks after that.

  function FromColon(t: Tail): string { Mark(':', t.colon) + t.b4 }

  function BehindClose(t: Tail): string { t.b3 + FromColon(t) }

  function FromClose(t: Tail): string { Mark(']', t.close) + BehindClose(t) }

  lemma TailSteps(t: Tail)
    requires LegalTail(t) && (!t.close ==> t.b3 == "") && (!t.colon ==> t.b4 == "")
    ensures Cat(SpellTail(t), t.b2, FromClose(t)) && Cat(FromClose(t), Mark(']', t.close), BehindClose(t))
    ensures Cat(BehindClose(t), t.b3, FromColon(t)) && Cat(FromColon(t), Mark(':', t.colon), t.b4) && Cat(t.b4, t.b4, "")
    ensures NoBlank(FromClose(t)) && NoMark(']', t.close, BehindClose(t))
    ensures NoBlank(FromColon(t)) && NoMark(':', t.colon, t.b4) && NoBlank("")
    ensures Blanks(t.b2) && Blanks(t.b3) && Blanks(t.b4)
  {}

  lemma TailReadsClose(line: string, i: nat, t: Tail) returns (i1: nat, i2: nat)
    requires Rest(line, i, SpellTail(t)) && LegalTail(t)
    requires (!t.close ==> t.b3 == "") && (!t.colon ==> t.b4 == "")
    ensures i <= i1 <= i2 <= |line| && SkipBlank(line, i) == i1 && SkipOptional(line, i1, ']') == i2
    ensures Rest(line, i2, BehindClose(t))
  {
    TailSteps(t);
    hide *;
    TakeBlanks(line, i, SpellTail(t), t.b2, FromClose(t));
    i1 := i + |t.b2|;
    TakeMark(line, i1, ']', t.close, FromClose(t), BehindClose(t));
    i2 := i1 + |Mark(']', t.close)|;
  }

  lemma TailReadsColon(line: string, i2: nat, t: Tail) returns (i3: nat, i4: nat)
    requires Rest(line, i2, BehindClose(t)) && LegalTail(t)
    requires (!t.close ==> t.b3 == "") && (!t.colon ==> t.b4 == "")
    ensures i2 <= i3 <= i4 <= |line| && SkipBlank(line, i2) == i3 && SkipOptional(line, i3, ':') == i4
    ensures SkipBlank(line, i4) == |line|
  {
    TailSteps(t);
    hide *;
    TakeBlanks(line, i2, BehindClose(t), t.b3, FromColon(t));
    i3 := i2 + |t.b3|;
    TakeMark(line, i3, ':', t.colon, FromColon(t), t.b4);
    i4 := i3 + |Mark(':', t.colon)|;
    TakeBlanks(line, i4, t.b4, t.b4, "");
    RestFirst(line, i4 + |t.b4|, "");
  }

  lemma TailReadsClosed(line: string, i: nat, t: Tail)
    requires Rest(line, i, SpellTail(t)) && LegalTail(t)
    requires (!t.close ==> t.b3 == "") && (!t.colon ==> t.b4 == "")
    ensures i <= |line| && RoleTail(line, i)
  {
    hide *;
    var i1, i2 := TailReadsClose(line, i, t);
    var i3, i4 := TailReadsColon(line, i2, t);
    RoleTailIs(line, i, i1, i2, i3, i4);
  }

  lemma RoleTailIs(line: string, i: nat, i1: nat, i2: nat, i3: nat, i4: nat)
    requires i <= |line| && SkipBlank(line, i) == i1 && SkipOptional(line, i1, ']') == i2
    requires SkipBlank(line, i2) == i3 && SkipOptional(line, i3, ':') == i4
    ensures i4 <= |line| && (RoleTail(line, i) <==> SkipBlank(line, i4) == |line|)
  {
    hide SkipBlank, SkipOptional;
  }

  lemma CutOne(s: string, a: nat, b: nat)
    requires a <= b <= |s|
    ensures Cat(s[a..], s[a..b], s[b..])
  {}

  lemma MarkFound(s: string, i: nat, c: char)
    requires i <= |s|
    ensures var j := SkipOptional(s, i, c); Mark(c, j > i) == s[i..j]
  {}

  /** What the end of a role line consists of. */
  lemma TailFound(line: string, i: nat) returns (t: Tail)
    requires i <= |line| && RoleTail(line, i)
    ensures LegalTail(t) && Rest(line, i, SpellTail(t))
  {
    var i1 := SkipBlank(line, i);
    var i2 := SkipOptional(line, i1, ']');
    var i3 := SkipBlank(line, i2);
    var i4 := SkipOptional(line, i3, ':');
    RoleTailIs(line, i, i1, i2, i3, i4);
    t := Tail(line[i..i1], i2 > i1, line[i2..i3], i4 > i3, line[i4..]);
    assert line[i4..] == line[i4..|line|];
    hide *;
    SkipBlankSkips(line, i);
    SkipBlankSkips(line, i2);
    SkipBlankSkips(line, i4);
    MarkFound(line, i1, ']');
    MarkFound(line, i3, ':');
    CutOne(line, i, i1);
    CutOne(line, i1, i2);
    CutOne(line, i2, i3);
    CutOne(line, i3, i4);
    SpellTailIs(line, i, t, line[i1..], line[i2..], line[i3..]);
  }

  lemma SpellTailIs(line: string, i: nat, t: Tail, r1: string, r2: string, r3: string)
    requires i <= |line| && Cat(line[i..], t.b2, r1) && Cat(r1, Mark(']', t.close), r2)
    requires Cat(r2, t.b3, r3) && Cat(r3, Mark(':', t.colon), t.b4)
    ensures Rest(line, i, SpellTail(t))
    ensures Blanks(t.b2) && Blanks(t.b3) && Blanks(t.b4) ==> LegalTail(t)
  {}

  lemma RolesStart(w: string)
    requires IsRole(w)
    ensures w != "" && 'a' <= w[0] <= 'z'
  {}

  lemma SameStart(s: string, w: string)
    requires Same(s, w) && IsRole(w)
    ensures s != "" && !Blank(s[0]) && s[0] != '['
  {
    RolesStart(w);
    assert Lower(s[0]) == w[0];
  }

  lemma SameIsAt(line: string, i: nat, s: string, w: string)
    requires At(line, i, s) && Same(s, w)
    ensures AtNoCase(line, i, w)
  {
    forall k | 0 <= k < |w| ensures Lower(line[i + k]) == w[k] { AtChar(line, i, s, k); }
  }

  lemma AtIsSame(line: string, i: nat, w: string)
    requires AtNoCase(line, i, w)
    ensures Same(line[i..i + |w|], w)
  {}

  lemma RoleReads(line: string, p: RoleParts)
    requires LegalRole(p) && line == SpellRole(p)
    ensures RoleLine(line)
  {
    var w :| IsRole(w) && Same(p.word, w);
    assert line[0..] == line;
    if p.open {
      RoleReadsFrom(line, p, w);
    } else {
      BlanksJoin(p.b0, p.b1);
      var q := p.(b0 := p.b0 + p.b1, b1 := "");
      assert SpellRole(q) == SpellRole(p);
      RoleReadsFrom(line, q, w);
    }
  }

  // What is left of a role line behind its first blanks, behind its bracket, and behind the blanks after that.

  function FromWord(p: RoleParts): string { p.word + SpellTail(p.tail) }

  function BehindOpen(p: RoleParts): string { p.b1 + FromWord(p) }

  function FromOpen(p: RoleParts): string { Mark('[', p.open) + BehindOpen(p) }

  lemma RoleSteps(p: RoleParts, w: string)
    requires LegalRole(p) && IsRole(w) && Same(p.word, w) && (!p.open ==> p.b1 == "")
    ensures Cat(SpellRole(p), p.b0, FromOpen(p)) && Cat(FromOpen(p), Mark('[', p.open), BehindOpen(p))
    ensures Cat(BehindOpen(p), p.b1, FromWord(p)) && Cat(FromWord(p), p.word, SpellTail(p.tail))
    ensures NoBlank(FromOpen(p)) && NoMark('[', p.open, BehindOpen(p)) && NoBlank(FromWord(p))
    ensures Blanks(p.b0) && Blanks(p.b1) && LegalTail(p.tail)
  {
    SameStart(p.word, w);
  }

  lemma RoleReadsHead(line: string, p: RoleParts, w: string) returns (i1: nat, i2: nat, i3: nat)
    requires LegalRole(p) && Rest(line, 0, SpellRole(p)) && IsRole(w) && Same(p.word, w) && (!p.open ==> p.b1 == "")
    ensures i1 <= i2 <= i3 <= |line| && SkipBlank(line, 0) == i1 && SkipOptional(line, i1, '[') == i2 && SkipBlank(line, i2) == i3
    ensures Rest(line, i3, FromWord(p))
  {
    RoleSteps(p, w);
    hide *;
    TakeBlanks(line, 0, SpellRole(p), p.b0, FromOpen(p));
    i1 := 0 + |p.b0|;
    TakeMark(line, i1, '[', p.open, FromOpen(p), BehindOpen(p));
    i2 := i1 + |Mark('[', p.open)|;
    TakeBlanks(line, i2, BehindOpen(p), p.b1, FromWord(p));
    i3 := i2 + |p.b1|;
  }

  lemma WordSteps(p: RoleParts)
    requires LegalRole(p)
    ensures LegalTail(p.tail) && Cat(FromWord(p), p.word, SpellTail(p.tail))
  {}

  lemma WordReads(line: string, i: nat, p: RoleParts, w: string)
    requires LegalRole(p) && Rest(line, i, FromWord(p)) && IsRole(w) && Same(p.word, w)
    ensures AtNoCase(line, i, w) && i + |w| <= |line| && RoleTail(line, i + |w|)
  {
    hide *;
    WordSteps(p);
    SameLength(p.word, w);
    Onward(line, i, FromWord(p), p.word, SpellTail(p.tail));
    SameIsAt(line, i, p.word, w);
    TailReads(line, i + |p.word|, p.tail);
  }

  lemma RoleReadsFrom(line: string, p: RoleParts, w: string)
    requires LegalRole(p) && Rest(line, 0, SpellRole(p)) && IsRole(w) && Same(p.word, w) && (!p.open ==> p.b1 == "")
    ensures RoleLine(line)
  {
    hide *;
    var i1, i2, i3 := RoleReadsHead(line, p, w);
    WordReads(line, i3, p, w);
    RoleLineIs(line, i1, i2, i3, w);
  }

  lemma SameLength(s: string, w: string)
    requires Same(s, w)
    ensures |s| == |w|
  {}

  lemma RoleLineIs(line: string, i1: nat, i2: nat, i3: nat, w: string)
    requires SkipBlank(line, 0) == i1 && SkipOptional(line, i1, '[') == i2 && SkipBlank(line, i2) == i3
    requires IsRole(w) && AtNoCase(line, i3, w) && RoleTail(line, i3 + |w|)
    ensures RoleLine(line)
  {
    hide SkipBlank, SkipOptional, RoleTail, AtNoCase;
  }

  lemma RoleWord(line: string, i: nat) returns (w: string)
    requires RoleLine(line) && i == SkipBlank(line, SkipOptional(line, SkipBlank(line, 0), '['))
    ensures IsRole(w) && i + |w| <= |line| && AtNoCase(line, i, w) && RoleTail(line, i + |w|)
  {
    hide SkipBlank, SkipOptional, RoleTail;
    w :| w in ROLES && AtNoCase(line, i, w) && RoleTail(line, i + |w|);
  }

  lemma RoleFound(line: string) returns (p: RoleParts)
    requires RoleLine(line)
    ensures LegalRole(p) && line == SpellRole(p)
  {
    hide *;
    var i1 := SkipBlank(line, 0);
    var i2 := SkipOptional(line, i1, '[');
    var i3 := SkipBlank(line, i2);
    var w := RoleWord(line, i3);
    p := RoleFoundAt(line, i1, i2, i3, w);
  }

  lemma RoleFoundAt(line: string, i1: nat, i2: nat, i3: nat, w: string) returns (p: RoleParts)
    requires i1 <= i2 <= i3 <= i3 + |w| <= |line|
    requires SkipBlank(line, 0) == i1 && SkipOptional(line, i1, '[') == i2 && SkipBlank(line, i2) == i3
    requires IsRole(w) && AtNoCase(line, i3, w) && RoleTail(line, i3 + |w|)
    ensures LegalRole(p) && line == SpellRole(p)
  {
    hide *;
    var i4 := i3 + |w|;
    var t := TailFound(line, i4);
    p := RoleParts(line[0..i1], i2 > i1, line[i2..i3], line[i3..i4], t);
    AtIsSame(line, i3, w);
    SkipBlankSkips(line, 0);
    SkipBlankSkips(line, i2);
    MarkFound(line, i1, '[');
    FourCuts(line, i1, i2, i3, i4);
    SpellRoleIs(line, p, w, i4, line[i1..], line[i2..], line[i3..]);
  }

  lemma FourCuts(s: string, i1: nat, i2: nat, i3: nat, i4: nat)
    requires i1 <= i2 <= i3 <= i4 <= |s|
    ensures Cat(s[0..], s[0..i1], s[i1..]) && Cat(s[i1..], s[i1..i2], s[i2..])
    ensures Cat(s[i2..], s[i2..i3], s[i3..]) && Cat(s[i3..], s[i3..i4], s[i4..])
  {
    hide *;
    CutOne(s, 0, i1);
    CutOne(s, i1, i2);
    CutOne(s, i2, i3);
    CutOne(s, i3, i4);
  }

  lemma SpellRoleIs(line: string, p: RoleParts, w: string, i: nat, r1: string, r2: string, r3: string)
    requires i <= |line| && Cat(line[0..], p.b0, r1) && Cat(r1, Mark('[', p.open), r2) && Cat(r2, p.b1, r3)
    requires Cat(r3, p.word, line[i..]) && Rest(line, i, SpellTail(p.tail))
    requires Blanks(p.b0) && Blanks(p.b1) && IsRole(w) && Same(p.word, w) && LegalTail(p.tail)
    ensures LegalRole(p) && line == SpellRole(p)
  {
    assert line[0..] == line;
  }

  /** A role line is exactly a line put together like that. */
  lemma RoleLineExactly(line: string)
    ensures RoleLine(line) <==> exists p: RoleParts :: LegalRole(p) && SpellRole(p) == line
  {
    if RoleLine(line) {
      var p := RoleFound(line);
    }
    if exists p: RoleParts :: LegalRole(p) && SpellRole(p) == line {
      var p: RoleParts :| LegalRole(p) && SpellRole(p) == line;
      RoleReads(line, p);
    }
  }

  predicate OneLine(s: string) {
    forall k | 0 <= k < |s| :: s[k] != '\n'
  }

  /** At `q` a line starts that is a role line and is completed. */
  ghost predicate RoleAt(s: string, q: nat) {
    && q <= |s| && (q == 0 || s[q - 1] == '\n')
    && exists p: RoleParts, rest: string :: LegalRole(p) && OneLine(SpellRole(p)) && s[q..] == SpellRole(p) + ("\n" + rest)
  }

  lemma LineEnds(s: string, q: nat, line: string, rest: string)
    requires q <= |s| && OneLine(line) && s[q..] == line + ("\n" + rest)
    ensures NextNewline(s, q) == q + |line| < |s| && s[q..q + |line|] == line
  {
    Onward(s, q, s[q..], line, "\n" + rest);
    RestFirst(s, q + |line|, "\n" + rest);
    forall k | q <= k < q + |line| ensures s[k] != '\n' { AtChar(s, q, line, k - q); }
    NextNewlineUnique(s, q, q + |line|);
  }

  lemma LineCut(s: string, q: nat)
    requires q <= |s| && NextNewline(s, q) < |s|
    ensures var e := NextNewline(s, q); OneLine(s[q..e]) && Cat(s[q..], s[q..e], "\n" + s[e + 1..])
  {}

  lemma RoleExactly(s: string, q: nat)
    ensures Role(s, q) <==> RoleAt(s, q)
  {
    hide RoleLine, LegalRole, SpellRole;
    if Role(s, q) {
      LineCut(s, q);
      RoleLineExactly(s[q..NextNewline(s, q)]);
    }
    if RoleAt(s, q) {
      var p: RoleParts, rest: string :| LegalRole(p) && OneLine(SpellRole(p)) && s[q..] == SpellRole(p) + ("\n" + rest);
      LineEnds(s, q, SpellRole(p), rest);
      RoleLineExactly(SpellRole(p));
    }
  }

  // ---------------------------------------------------------------- leaked prompts

  /** Space, `user`, at most 160 characters of its line, space from the line's end on, and `/no_think` as a word. */
  datatype LeakParts = LeakParts(lead: string, user: string, body: string, gap: string, command: string, rest: string)

  predicate IsUser(s: string) { Same(s, "user") }

  predicate IsCommand(s: string) { Same(s, "/no_think") }

  predicate WordEnds(rest: string) { rest != "" ==> !IsWord(rest[0]) }

  predicate LegalLeak(p: LeakParts) {
    && Spaces(p.lead) && IsUser(p.user) && OneLine(p.body) && |p.body| <= 160
    && Spaces(p.gap) && IsCommand(p.command) && WordEnds(p.rest)
  }

  function SpellLeakBody(p: LeakParts): string {
    p.user + (p.body + ("\n" + (p.gap + (p.command + p.rest))))
  }

  /** At `q` a leaked prompt starts: at the beginning of the text, or with a newline. */
  ghost predicate LeakAt(s: string, q: nat) {
    && q <= |s| && (q == 0 || (q < |s| && s[q] == '\n'))
    && exists p: LeakParts :: LegalLeak(p) && s[q..] == p.lead + SpellLeakBody(p)
  }

  lemma SpacesSkipped(s: string, i: nat, whole: string, b: string, rest: string)
    requires Rest(s, i, whole) && Cat(whole, b, rest) && Spaces(b) && NoSpace(rest)
    ensures i <= i + |b| <= |s| && SkipSpace(s, i) == i + |b| && Rest(s, i + |b|, rest)
  {
    Onward(s, i, whole, b, rest);
    RestFirst(s, i + |b|, rest);
    forall k | i <= k < i + |b| ensures IsSpace(s[k]) { AtChar(s, i, b, k - i); }
    SkipSpaceUnique(s, i, i + |b|);
  }

  // What is left of a leak from its command on, from the space before that on, and behind `user`.

  function FromCommand(p: LeakParts): string { p.command + p.rest }

  function Gap(p: LeakParts): string { "\n" + p.gap }

  function FromGap(p: LeakParts): string { Gap(p) + FromCommand(p) }

  function BehindUser(p: LeakParts): string { p.body + FromGap(p) }

  lemma LeakSteps(p: LeakParts)
    requires LegalLeak(p)
    ensures Cat(SpellLeakBody(p), p.user, BehindUser(p)) && Cat(BehindUser(p), p.body, FromGap(p))
    ensures Cat(FromGap(p), Gap(p), FromCommand(p)) && Cat(FromCommand(p), p.command, p.rest)
    ensures NoSpace(SpellLeakBody(p)) && NoSpace(FromCommand(p)) && Spaces(p.lead) && Spaces(Gap(p))
    ensures IsUser(p.user) && IsCommand(p.command) && |p.user| == 4 && |p.command| == 9
    ensures |p.body| <= 160 && WordEnds(p.rest)
  {
    assert Lower(p.user[0]) == 'u' && Lower(p.command[0]) == '/';
    assert SpellLeakBody(p) == p.user + BehindUser(p);
  }

  /** The line behind `user` ends where the space before the command starts. */
  lemma BodyEnds(s: string, i: nat, p: LeakParts)
    requires LegalLeak(p) && Rest(s, i, BehindUser(p))
    ensures i <= i + |p.body| < |s| && NextNewline(s, i) == i + |p.body| && Rest(s, i + |p.body|, FromGap(p))
  {
    var rest := p.gap + FromCommand(p);
    assert FromGap(p) == "\n" + rest;
    LineEnds(s, i, p.body, rest);
    Onward(s, i, BehindUser(p), p.body, FromGap(p));
  }

  lemma LeadSkipped(s: string, q: nat, whole: string, p: LeakParts)
    requires LegalLeak(p) && Rest(s, q, whole) && Cat(whole, p.lead, SpellLeakBody(p))
    ensures q <= |s| && SkipSpace(s, q) == q + |p.lead| && Rest(s, q + |p.lead|, SpellLeakBody(p))
  {
    LeakSteps(p);
    hide *;
    SpacesSkipped(s, q, whole, p.lead, SpellLeakBody(p));
  }

  lemma LeakReads(s: string, q: nat, whole: string, p: LeakParts)
    requires LegalLeak(p) && Rest(s, q, whole) && Cat(whole, p.lead, SpellLeakBody(p))
    ensures q <= |s| && LeakBody(s, SkipSpace(s, q))
  {
    hide *;
    LeadSkipped(s, q, whole, p);
    LeakBodyReads(s, q + |p.lead|, p);
  }

  lemma CommandReads(s: string, n: nat, p: LeakParts)
    requires LegalLeak(p) && Rest(s, n, FromGap(p))
    ensures var w := n + |Gap(p)|; n <= |s| && SkipSpace(s, n) == w && At(s, w, p.command) && Rest(s, w + 9, p.rest)
  {
    LeakSteps(p);
    hide *;
    SpacesSkipped(s, n, FromGap(p), Gap(p), FromCommand(p));
    Onward(s, n + |Gap(p)|, FromCommand(p), p.command, p.rest);
  }

  lemma LeakBodyReads(s: string, u: nat, p: LeakParts)
    requires LegalLeak(p) && Rest(s, u, SpellLeakBody(p))
    ensures LeakBody(s, u)
  {
    LeakSteps(p);
    hide *;
    Onward(s, u, SpellLeakBody(p), p.user, BehindUser(p));
    BodyEnds(s, u + 4, p);
    var n := u + 4 + |p.body|;
    CommandReads(s, n, p);
    LeakBodyIs(s, u, n, n + |Gap(p)|, p);
  }

  lemma LeakBodyIs(s: string, u: nat, n: nat, w: nat, p: LeakParts)
    requires At(s, u, p.user) && IsUser(p.user) && u + 4 <= n < |s| && NextNewline(s, u + 4) == n && n - (u + 4) <= 160
    requires SkipSpace(s, n) == w && At(s, w, p.command) && IsCommand(p.command) && Rest(s, w + 9, p.rest) && WordEnds(p.rest)
    ensures LeakBody(s, u)
  {
    SameIsAt(s, u, p.user, "user");
    SameIsAt(s, w, p.command, "/no_think");
    if w + 9 < |s| { assert s[w + 9] == p.rest[0]; }
    hide NextNewline, SkipSpace, AtNoCase, IsWord;
  }

  lemma LeakBodyParts(s: string, u: nat)
    requires LeakBody(s, u)
    ensures u + 4 <= |s| && IsUser(s[u..u + 4])
    ensures var n := NextNewline(s, u + 4);
      n < |s| && n - (u + 4) <= 160 && IsSpace(s[n]) && s[n] == '\n'
      && var w := SkipSpace(s, n); w > n && w + 9 <= |s| && IsCommand(s[w..w + 9]) && WordEnds(s[w + 9..])
  {}

  lemma SkipSpaceSkips(s: string, i: nat)
    requires i <= |s|
    ensures var r := SkipSpace(s, i); i <= r <= |s| && Spaces(s[i..r]) && forall k | i <= k <= r :: Spaces(s[k..r])
  {}

  lemma LeakFound(s: string, q: nat) returns (p: LeakParts)
    requires q <= |s| && LeakBody(s, SkipSpace(s, q))
    ensures LegalLeak(p) && Cat(s[q..], p.lead, SpellLeakBody(p))
  {
    hide *;
    var u := SkipSpace(s, q);
    LeakBodyParts(s, u);
    SkipSpaceSkips(s, q);
    p := LeakFoundAt(s, q, u, NextNewline(s, u + 4), SkipSpace(s, NextNewline(s, u + 4)));
  }

  lemma LeakFoundAt(s: string, q: nat, u: nat, n: nat, w: nat) returns (p: LeakParts)
    requires q <= u <= u + 4 <= n < w <= w + 9 <= |s| && Spaces(s[q..u]) && IsUser(s[u..u + 4])
    requires NextNewline(s, u + 4) == n && n - (u + 4) <= 160 && SkipSpace(s, n) == w
    requires IsCommand(s[w..w + 9]) && WordEnds(s[w + 9..])
    ensures LegalLeak(p) && Cat(s[q..], p.lead, SpellLeakBody(p))
  {
    hide *;
    p := LeakParts(s[q..u], s[u..u + 4], s[u + 4..n], s[n + 1..w], s[w..w + 9], s[w + 9..]);
    LeakGap(s, u, n, w);
    LeakCuts(s, q, u, n, w);
    LegalLeakIs(s[q..], p, s[u..], s[u + 4..], s[n + 1..], s[w..]);
  }

  lemma LeakGap(s: string, u: nat, n: nat, w: nat)
    requires u + 4 <= n < w <= |s| && NextNewline(s, u + 4) == n && n - (u + 4) <= 160 && SkipSpace(s, n) == w
    ensures OneLine(s[u + 4..n]) && |s[u + 4..n]| <= 160 && Spaces(s[n + 1..w])
    ensures Cat(s[u + 4..], s[u + 4..n], "\n" + s[n + 1..])
  {
    LineCut(s, u + 4);
    SkipSpaceSkips(s, n);
  }

  lemma LeakCuts(s: string, q: nat, u: nat, n: nat, w: nat)
    requires q <= u <= u + 4 <= n < w <= w + 9 <= |s|
    ensures Cat(s[q..], s[q..u], s[u..]) && Cat(s[u..], s[u..u + 4], s[u + 4..])
    ensures Cat(s[n + 1..], s[n + 1..w], s[w..]) && Cat(s[w..], s[w..w + 9], s[w + 9..])
  {
    hide *;
    CutOne(s, q, u);
    CutOne(s, u, u + 4);
    CutOne(s, n + 1, w);
    CutOne(s, w, w + 9);
  }

  lemma LegalLeakIs(whole: string, p: LeakParts, r1: string, r2: string, r3: string, r4: string)
    requires Cat(whole, p.lead, r1) && Cat(r1, p.user, r2) && Cat(r2, p.body, "\n" + r3)
    requires Cat(r3, p.gap, r4) && Cat(r4, p.command, p.rest)
    requires Spaces(p.lead) && IsUser(p.user) && OneLine(p.body) && |p.body| <= 160
    requires Spaces(p.gap) && IsCommand(p.command) && WordEnds(p.rest)
    ensures LegalLeak(p) && Cat(whole, p.lead, SpellLeakBody(p))
  {}

  lemma LeakExactly(s: string, q: nat)
    ensures Leak(s, q) <==> LeakAt(s, q)
  {
    hide LeakBody, LegalLeak, SpellLeakBody;
    if Leak(s, q) {
      var p := LeakFound(s, q);
    }
    if LeakAt(s, q) {
      var p: LeakParts :| LegalLeak(p) && s[q..] == p.lead + SpellLeakBody(p);
      LeakReads(s, q, s[q..], p);
    }
  }

  // ---------------------------------------------------------------- repetitions

  /** A text, a run of spaces, and a text behind it, none of which could take more space. */
  predicate Split(n: string, head: string, gap: string, tail: string) {
    && n == head + (gap + tail) && Spaces(gap)
    && (head != "" ==> !IsSpace(head[|head| - 1])) && (tail != "" ==> !IsSpace(tail[0]))
  }

  /** The tail starts like the head, as far as both reach, and for 96 characters at most. */
  predicate Echoes(head: string, tail: string) {
    forall k | 0 <= k < 96 && k < |head| && k < |tail| :: tail[k] == head[k]
  }

  /** The break at `i`: a newline of the gap with another one further on in it. */
  predicate BreakIn(head: string, gap: string, i: nat) {
    |head| <= i < |head| + |gap| && gap[i - |head|] == '\n' && exists k | i - |head| < k < |gap| :: gap[k] == '\n'
  }

  /** Text is repeated behind the break at `i`. */
  ghost predicate RepetitionAt(n: string, i: nat) {
    exists head: string, gap: string, tail: string ::
      Split(n, head, gap, tail) && BreakIn(head, gap, i) && |head| >= 80 && |tail| >= 32 && Echoes(head, tail)
  }

  lemma SplitAt(n: string, i: nat)
    requires i <= |n|
    ensures var a, b := RunStart(n, i), SkipSpace(n, i); a <= i <= b <= |n| && Split(n, n[..a], n[a..b], n[b..])
  {
    var a, b := RunStart(n, i), SkipSpace(n, i);
    SplitParts(n, a, b);
  }

  lemma SplitParts(n: string, a: nat, b: nat)
    requires a <= b <= |n| && AllSpace(n, a, b) && (a > 0 ==> !IsSpace(n[a - 1])) && (b < |n| ==> !IsSpace(n[b]))
    ensures Split(n, n[..a], n[a..b], n[b..])
  {
    hide IsSpace;
    assert n[..a] + (n[a..b] + n[b..]) == n;
  }

  lemma SplitIs(n: string, head: string, gap: string, tail: string, i: nat)
    requires Split(n, head, gap, tail) && |head| <= i <= |head| + |gap|
    ensures i <= |n| && RunStart(n, i) == |head| && SkipSpace(n, i) == |head| + |gap|
    ensures n[..|head|] == head && n[|head|..|head| + |gap|] == gap && n[|head| + |gap|..] == tail
  {
    RunStartUnique(n, i, |head|);
    SkipSpaceUnique(n, i, |head| + |gap|);
  }

  lemma EchoesIsAt(n: string, head: string, gap: string, tail: string)
    requires Split(n, head, gap, tail)
    ensures var k := Least(|head|, Least(|tail|, 96)); At(n, |head| + |gap|, n[..k]) <==> Echoes(head, tail)
  {
    var k, b := Least(|head|, Least(|tail|, 96)), |head| + |gap|;
    assert n[b..b + k] == tail[..k] && n[..k] == head[..k];
    if Echoes(head, tail) { assert tail[..k] == head[..k]; }
    if tail[..k] == head[..k] {
      forall j | 0 <= j < 96 && j < |head| && j < |tail| ensures tail[j] == head[j] { assert tail[..k][j] == head[..k][j]; }
    }
  }

  lemma GapIs(n: string, head: string, gap: string, tail: string, k: nat)
    requires Split(n, head, gap, tail) && k < |gap|
    ensures |head| + k < |n| && n[|head| + k] == gap[k]
  {}

  lemma BreakIsParagraph(n: string, head: string, gap: string, tail: string, i: nat)
    requires Split(n, head, gap, tail) && |head| <= i < |head| + |gap|
    ensures Paragraph(n, i) <==> BreakIn(head, gap, i)
  {
    SplitIs(n, head, gap, tail, i);
    GapIs(n, head, gap, tail, i - |head|);
    hide Split, SkipSpace, RunStart, NextNewline;
    if BreakIn(head, gap, i) {
      var k :| i - |head| < k < |gap| && gap[k] == '\n';
      GapIs(n, head, gap, tail, k);
      NewlineBy(n, i + 1, |head| + k);
    }
    if Paragraph(n, i) {
      var k := NextNewline(n, i + 1) - |head|;
      GapIs(n, head, gap, tail, k);
      assert gap[k] == '\n';
    }
  }

  lemma NewlineBy(n: string, i: nat, k: nat)
    requires i <= k < |n| && n[k] == '\n'
    ensures NextNewline(n, i) <= k
  {}

  /** The verdict on a break, told by the texts around its run of spaces. */
  lemma JudgeExactly(n: string, head: string, gap: string, tail: string, i: nat)
    requires Split(n, head, gap, tail) && |head| <= i <= |head| + |gap|
    ensures i <= |n|
    ensures Judge(n, i) == if |head| < 80 then Differs else if |tail| < 32 then TooShort else if Echoes(head, tail) then Repeats else Differs
  {
    SplitIs(n, head, gap, tail, i);
    EchoesIsAt(n, head, gap, tail);
  }

  lemma RepetitionExactly(n: string, i: nat)
    ensures RepeatAt(n, i) <==> RepetitionAt(n, i)
  {
    hide Judge, Paragraph, BreakIn, Split, Echoes;
    if RepeatAt(n, i) {
      InText(n, i);
      SplitAt(n, i);
      var a, b := RunStart(n, i), SkipSpace(n, i);
      BreakInRun(n, i);
      BreakIsParagraph(n, n[..a], n[a..b], n[b..], i);
      JudgeExactly(n, n[..a], n[a..b], n[b..], i);
    }
    if RepetitionAt(n, i) {
      var head: string, gap: string, tail: string :|
        Split(n, head, gap, tail) && BreakIn(head, gap, i) && |head| >= 80 && |tail| >= 32 && Echoes(head, tail);
      BreakBounds(head, gap, i);
      BreakIsParagraph(n, head, gap, tail, i);
      JudgeExactly(n, head, gap, tail, i);
    }
  }

  lemma InText(n: string, i: nat)
    requires Paragraph(n, i)
    ensures i < |n|
  {}

  lemma BreakInRun(n: string, i: nat)
    requires Paragraph(n, i)
    ensures RunStart(n, i) <= i < SkipSpace(n, i)
  {}

  lemma BreakBounds(head: string, gap: string, i: nat)
    requires BreakIn(head, gap, i)
    ensures |head| <= i < |head| + |gap|
  {}

  // ---------------------------------------------------------------- what the stateless sanitizer answers

  /** A stop sequence, a completed role line or a leaked prompt starts at `q`. */
  ghost predicate MarkerAt(s: string, q: nat) {
    (exists m | m in MARKERS :: At(s, q, m)) || RoleAt(s, q) || LeakAt(s, q)
  }

  lemma MarkerExactly(s: string, q: nat)
    ensures Marker(s, q) <==> MarkerAt(s, q)
  {
    hide Role, Leak, RoleAt, LeakAt;
    RoleExactly(s, q);
    LeakExactly(s, q);
  }

  /** The text in front of the first repetition, and whether there is one. */
  ghost predicate TrimsTo(text: string, t: string, repeated: bool) {
    var n := RStrip(text);
    if repeated then
      exists i: nat :: i <= |n| && RepetitionAt(n, i) && t == RStrip(n[..i]) && forall k: nat | k < i :: !RepetitionAt(n, k)
    else t == text && forall k: nat | k <= |n| :: !RepetitionAt(n, k)
  }

  lemma RunStartIsRStrip(n: string, i: nat)
    requires i <= |n|
    ensures n[..RunStart(n, i)] == RStrip(n[..i])
  {
    RunStartUnique(n[..i], i, RunStart(n, i));
    assert n[..i][..RunStart(n, i)] == n[..RunStart(n, i)];
  }

  lemma TrimmedExactly(text: string)
    ensures TrimsTo(text, Trimmed(text).0, Trimmed(text).1)
  {
    var n := RStrip(text);
    var found := Search(Repetitions, n, 0);
    hide RStrip, Search, RepetitionAt, RunStart;
    forall k: nat ensures Matches(Repetitions, n, k) == RepetitionAt(n, k) { RepetitionExactly(n, k); }
    if found.Some? { RunStartIsRStrip(n, found.value); }
  }

  /** The text in front of the first marker. */
  ghost predicate CutsTo(t: string, stopped: bool, out: string, stop: bool) {
    || (stop && exists q: nat :: q <= |t| && MarkerAt(t, q) && out == RStrip(t[..q]) && forall k: nat | k < q :: !MarkerAt(t, k))
    || (out == t && stop == stopped && forall q: nat | q <= |t| :: !MarkerAt(t, q))
  }

  lemma CutExactly(t: string, stopped: bool)
    ensures CutsTo(t, stopped, Cut(t, stopped).0, Cut(t, stopped).1)
  {
    var found := Search(Markers, t, 0);
    hide RStrip, Search, MarkerAt;
    forall k: nat ensures Matches(Markers, t, k) == MarkerAt(t, k) { MarkerExactly(t, k); }
  }

  /**
   What the stateless sanitizer answers: the text before its first repetition, up to the first marker
   in that, without spaces at the cut; it says to stop if it has cut, or if thinking stopped it before.
   */
  lemma StatelessExactly(text: string, thinking: bool)
    ensures exists t: string, repeated: bool ::
      && TrimsTo(text, t, repeated)
      && CutsTo(t, thinking || repeated, Stateless(text, thinking).0, Stateless(text, thinking).1)
  {
    TrimmedExactly(text);
    CutExactly(Trimmed(text).0, thinking || Trimmed(text).1);
    hide Trimmed, Cut, TrimsTo, CutsTo;
  }

  /** Text without repetitions and markers passes as it is. */
  lemma CleanTextPasses(text: string, thinking: bool)
    requires forall k: nat :: !RepetitionAt(RStrip(text), k) && !MarkerAt(text, k)
    ensures Stateless(text, thinking) == (text, thinking)
  {
    TrimmedExactly(text);
    CutExactly(text, thinking);
    hide RepetitionAt, MarkerAt;
  }

  /** Text in front of a role line, if nothing else stops it, is what remains, without the spaces at its end. */
  lemma RoleLineCuts(before: string, p: RoleParts, rest: string, thinking: bool)
    requires LegalRole(p) && OneLine(SpellRole(p)) && (before != "" ==> before[|before| - 1] == '\n')
    requires var text := before + (SpellRole(p) + ("\n" + rest));
      (forall k: nat :: !RepetitionAt(RStrip(text), k)) && forall k: nat | k < |before| :: !MarkerAt(text, k)
    ensures Stateless(before + (SpellRole(p) + ("\n" + rest)), thinking) == (RStrip(before), true)
  {
    var text := before + (SpellRole(p) + ("\n" + rest));
    assert text[|before|..] == SpellRole(p) + ("\n" + rest) && text[..|before|] == before;
    assert RoleAt(text, |before|);
    FirstMarkerCuts(text, |before|, thinking);
  }

  lemma FirstMarkerCuts(text: string, q: nat, thinking: bool)
    requires q <= |text| && MarkerAt(text, q) && (forall k: nat | k < q :: !MarkerAt(text, k))
    requires forall k: nat :: !RepetitionAt(RStrip(text), k)
    ensures Stateless(text, thinking) == (RStrip(text[..q]), true)
  {
    TrimmedExactly(text);
    hide RepetitionAt, RStrip;
    assert Trimmed(text) == (text, false);
    forall k: nat ensures Matches(Markers, text, k) == MarkerAt(text, k) { MarkerExactly(text, k); }
    hide MarkerAt, Matches, Trimmed;
    SearchUnique(Markers, text, 0, Some(q));
  }
}
