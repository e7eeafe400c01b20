/**
 What the parser of gateway/deepseek.py accepts: every output is a list of pieces and an ending, and
 these tell what the parser has pushed, which calls it expects and how it stands, or that it fails.
 */
module DeepSeekForms {
  import opened Wrappers
  import opened Text
  import opened Dsml
  import opened DeepSeek
  import Exact = DsmlExact
  import Object = DeepSeekObject
  import Print = DsmlProofs

  // ---------------------------------------------------------------- marks

  /** No mark starts here, nor what could still become one. */
  predicate NoMark(rest: string) {
    forall m | m in MARKERS :: !(m <= rest) && !(rest < m)
  }

  /** More text could make this a mark. */
  predicate Unfinished(rest: string) {
    rest != "" && exists m | m in MARKERS :: rest < m
  }

  lemma {:induction false} PartOfSome(marks: seq<string>, rest: string) returns (m: string)
    requires PartOf(marks, rest)
    ensures m in marks && rest < m
  {
    if rest < marks[0] { m := marks[0]; } else { m := PartOfSome(marks[1..], rest); }
  }

  lemma {:induction false} PartOfThis(marks: seq<string>, rest: string, m: string)
    requires m in marks && rest < m
    ensures PartOf(marks, rest)
  {
    if !(rest < marks[0]) { PartOfThis(marks[1..], rest, m); }
  }

  lemma {:induction false} FirstOfThis(marks: seq<string>, rest: string, i: nat)
    requires i < |marks| && marks[i] <= rest && forall k | 0 <= k < i :: !(marks[k] <= rest)
    ensures FirstOf(marks, rest) == Some(marks[i])
  {
    if i > 0 { FirstOfThis(marks[1..], rest, i - 1); }
  }

  lemma {:induction false} FirstOfSome(marks: seq<string>, rest: string, m: string)
    requires m in marks && m <= rest
    ensures FirstOf(marks, rest).Some?
  {
    if !(marks[0] <= rest) { FirstOfSome(marks[1..], rest, m); }
  }

  lemma MarksOpen(m: string)
    requires m in MARKERS
    ensures m != "" && m[0] == '<'
  {}

  lemma CandidateIs(rest: string)
    requires rest != ""
    ensures Candidate(rest) <==> !NoMark(rest)
  {
    if Candidate(rest) && PartOf(MARKERS, rest) { var m := PartOfSome(MARKERS, rest); }
    if !NoMark(rest) {
      var m :| m in MARKERS && (m <= rest || rest < m);
      MarksOpen(m);
      if m <= rest { FirstOfSome(MARKERS, rest, m); } else { PartOfThis(MARKERS, rest, m); }
    }
  }

  /** A service mark that may not occur: a stray one, or a second opening of the reasoning. */
  predicate Forbidden(rest: string) {
    && !Unfinished(rest)
    && (|| THINK <= rest || END_SERVICE <= rest
        || (SERVICE <= rest && !(OPEN <= rest) && !(EOS <= rest)))
  }

  // ---------------------------------------------------------------- pieces and endings

  /** Plain text, the end of the reasoning, or a block of tool calls. */
  datatype Piece<V> = Run(text: string) | EndThink | Tools(block: Print.Block<V>)

  function Spell<V>(p: Piece<V>): string {
    match p
    case Run(text) => text
    case EndThink => END_THINK
    case Tools(block) => Print.PrintBlock(block)
  }

  function CallsIn<V>(p: Piece<V>): seq<Call<V>> {
    if p.Tools? then Print.CallsOf(p.block.invokes) else []
  }

  function Written<V>(pieces: seq<Piece<V>>): string {
    if pieces == [] then "" else Spell(pieces[0]) + Written(pieces[1..])
  }

  function CallsOf<V>(pieces: seq<Piece<V>>): seq<Call<V>> {
    if pieces == [] then [] else CallsIn(pieces[0]) + CallsOf(pieces[1..])
  }

  ghost predicate HasTools<V>(pieces: seq<Piece<V>>) {
    exists p | p in pieces :: p.Tools?
  }

  ghost predicate EndsThinking<V>(pieces: seq<Piece<V>>) {
    exists p | p in pieces :: p.EndThink?
  }

  /** How the output ends: at once, with the end marker and anything behind it, held back, or in an error. */
  datatype Ending = Nothing | Stop(behind: string) | Hold(rest: string) | Break(rest: string)

  function SpellEnding(e: Ending): string {
    match e
    case Nothing => ""
    case Stop(behind) => EOS + behind
    case Hold(rest) => rest
    case Break(rest) => rest
  }

  predicate AllSpaces(s: string) { AllSpace(s, 0, |s|) }

  /** `rest` starts with a block of tool calls: up to the end of the first closing tag. */
  predicate BlockOf(rest: string, n: nat) {
    OPEN <= rest && FindEndCalls(rest, 0).Some? && FindEndCalls(rest, 0).value.1 == n
  }

  /** No printed form of calls that may be made. */
  ghost predicate Malformed<V(!new)>(cfg: Config<V>, text: string) {
    forall b: Print.Block<V> :: Print.LegalBlock(cfg.codec, cfg.tools, b) ==> Print.PrintBlock(b) != text
  }

  /** What may be a piece, behind tool calls or not, in front of `behind`. */
  ghost predicate LegalPiece<V(!new)>(cfg: Config<V>, p: Piece<V>, after: bool, behind: string) {
    match p
    case Run(text) => text != "" && (after ==> AllSpaces(text)) && forall i | 0 <= i < |text| :: NoMark((text + behind)[i..])
    case EndThink => true
    case Tools(block) => Print.LegalBlock(cfg.codec, cfg.tools, block)
  }

  ghost predicate Legal<V(!new)>(cfg: Config<V>, pieces: seq<Piece<V>>, after: bool, behind: string) {
    pieces != [] ==>
      && LegalPiece(cfg, pieces[0], after, Written(pieces[1..]) + behind)
      && Legal(cfg, pieces[1..], after || pieces[0].Tools?, behind)
  }

  /** Text behind tool calls, a mark that may not occur, or an invalid block. */
  ghost predicate Breaks<V(!new)>(cfg: Config<V>, rest: string, after: bool) {
    rest != "" &&
    (|| (after && NoMark(rest) && !IsSpace(rest[0]))
     || Forbidden(rest)
     || (exists n | 0 <= n <= |rest| :: BlockOf(rest, n) && Malformed(cfg, rest[..n])))
  }

  ghost predicate LegalEnding<V(!new)>(cfg: Config<V>, e: Ending, after: bool) {
    match e
    case Nothing => true
    case Stop(_) => true
    case Hold(rest) => Unfinished(rest) || (OPEN <= rest && FindEndCalls(rest, 0).None?)
    case Break(rest) => Breaks(cfg, rest, after)
  }

  // ---------------------------------------------------------------- one piece

  /** The marks that a parser goes past are told apart by their third characters. */
  lemma ThirdTells(rest: string, i: nat)
    requires i == 0 || i == 2 || i == 4
    requires MARKERS[i] <= rest
    ensures Candidate(rest) && !PartOf(MARKERS, rest) && FirstOf(MARKERS, rest) == Some(MARKERS[i])
  {
    var m := MARKERS[i];
    assert rest[0] == m[0] && rest[1] == m[1] && rest[2] == m[2];
    if PartOf(MARKERS, rest) {
      var k := PartOfSome(MARKERS, rest);
      assert k[0] == rest[0] && k[1] == rest[1] && k[2] == rest[2];
    }
    FirstOfThis(MARKERS, rest, i);
  }

  /** The parser that has taken one piece, in front of `behind`. */
  function Over<V>(p: Parser<V>, piece: Piece<V>, behind: string): Parser<V> {
    var q := p.(pushed := p.pushed + Spell(piece), pending := behind);
    match piece
    case Run(_) => q
    case EndThink => q.(inReasoning := false)
    case Tools(_) => q.(expected := p.expected + CallsIn(piece), afterTools := true)
  }

  lemma ParseStep<V(!new)>(cfg: Config<V>, p: Parser<V>, q: Parser<V>)
    requires p.pending != "" && !p.stopped && Step(cfg, p) == Some(Ok(q))
    ensures Parse(cfg, p) == Parse(cfg, q)
  {
    hide Step;
  }

  lemma ParseStops<V(!new)>(cfg: Config<V>, p: Parser<V>)
    requires p.pending == "" || p.stopped || Step(cfg, p).None?
    ensures Parse(cfg, p) == Ok(p)
  {
    hide Step;
  }

  lemma ParseFails<V(!new)>(cfg: Config<V>, p: Parser<V>)
    requires p.pending != "" && !p.stopped && Step(cfg, p) == Some(Fail)
    ensures Parse(cfg, p) == Fail
  {
    hide Step;
  }

  lemma TakeRun<V(!new)>(cfg: Config<V>, p: Parser<V>, text: string, behind: string)
    requires p.pending == text + behind && !p.stopped && LegalPiece(cfg, Run(text), p.afterTools, behind)
    ensures Parse(cfg, p) == Parse(cfg, Over(p, Run(text), behind))
  {
    forall i | 0 <= i < |text| ensures !Candidate(p.pending[i..]) { CandidateIs(p.pending[i..]); }
    Object.RunAtOnce(cfg, p, |text|);
    RunIs(p, text, behind);
  }

  lemma RunIs<V(!new)>(p: Parser<V>, text: string, behind: string)
    requires p.pending == text + behind
    ensures Object.PushedRun(p, |text|) == Over(p, Run(text), behind)
    ensures AllSpace(p.pending, 0, |text|) == AllSpaces(text)
  {
    assert p.pending[..|text|] == text && p.pending[|text|..] == behind;
    assert forall i | 0 <= i < |text| :: p.pending[i] == text[i];
  }

  lemma TakeEndThink<V(!new)>(cfg: Config<V>, p: Parser<V>, behind: string)
    requires p.pending == END_THINK + behind && !p.stopped
    ensures Parse(cfg, p) == Parse(cfg, Over(p, EndThink, behind))
  {
    ThirdTells(p.pending, 4);
    assert p.pending[|END_THINK|..] == behind;
    hide Candidate, PartOf, FirstOf;
    ParseStep(cfg, p, Over(p, EndThink, behind));
  }

  lemma PrintedBlock<V(!new)>(cfg: Config<V>, b: Print.Block<V>, behind: string)
    requires Print.LegalBlock(cfg.codec, cfg.tools, b)
    ensures var text := Print.PrintBlock(b);
      text != "" && BlockOf(text + behind, |text|) && Validate(cfg.codec, cfg.tools, text) == Ok(Print.CallsOf(b.invokes))
  {
    hide Print.LegalBlock, Print.PrintBlock, FindEndCalls, Validate, Print.CallsOf;
    Exact.PrintedCompletes(cfg.codec, cfg.tools, b);
    Print.ValidatePrinted(cfg.codec, cfg.tools, b);
    EndCallsExtends(Print.PrintBlock(b), Print.PrintBlock(b) + behind);
  }

  lemma TakeTools<V(!new)>(cfg: Config<V>, p: Parser<V>, b: Print.Block<V>, behind: string)
    requires p.pending == Print.PrintBlock(b) + behind && !p.stopped && Print.LegalBlock(cfg.codec, cfg.tools, b)
    ensures Parse(cfg, p) == Parse(cfg, Over(p, Tools(b), behind))
  {
    var text := Print.PrintBlock(b);
    PrintedBlock(cfg, b, behind);
    hide Print.PrintBlock, Print.LegalBlock, Print.CallsOf, BlockOf, Validate, Step;
    assert p.pending[..|text|] == text && p.pending[|text|..] == behind;
    BlockStepIs(cfg, p, |text|);
    ParseStep(cfg, p, Over(p, Tools(b), behind));
  }

  lemma BlockStepIs<V(!new)>(cfg: Config<V>, p: Parser<V>, n: nat)
    requires BlockOf(p.pending, n)
    ensures 0 < n <= |p.pending| && Step(cfg, p) == Some(BlockTaken(cfg, p, n))
  {
    ThirdTells(p.pending, 0);
    hide Candidate, PartOf, FirstOf, Validate, FindEndCalls, BlockTaken;
  }

  lemma TakePiece<V(!new)>(cfg: Config<V>, p: Parser<V>, piece: Piece<V>, behind: string)
    requires p.pending == Spell(piece) + behind && !p.stopped && LegalPiece(cfg, piece, p.afterTools, behind)
    ensures Parse(cfg, p) == Parse(cfg, Over(p, piece, behind))
  {
    hide Parse, Over, Print.PrintBlock, Print.LegalBlock;
    match piece
    case Run(text) => TakeRun(cfg, p, text, behind);
    case EndThink => TakeEndThink(cfg, p, behind);
    case Tools(block) => TakeTools(cfg, p, block, behind);
  }

  // ---------------------------------------------------------------- all pieces

  /** The parser that has taken the pieces, in front of `behind`. */
  ghost function Taken<V>(p: Parser<V>, pieces: seq<Piece<V>>, behind: string): Parser<V> {
    Parser(behind, p.pushed + Written(pieces), p.expected + CallsOf(pieces),
           p.inReasoning && !EndsThinking(pieces), p.afterTools || HasTools(pieces), p.stopped)
  }

  lemma Later<V(!new)>(pieces: seq<Piece<V>>)
    requires pieces != []
    ensures HasTools(pieces) == (pieces[0].Tools? || HasTools(pieces[1..]))
    ensures EndsThinking(pieces) == (pieces[0].EndThink? || EndsThinking(pieces[1..]))
  {
    assert forall x :: x in pieces <==> x == pieces[0] || x in pieces[1..];
  }

  lemma Regroup<T>(a: seq<T>, b: seq<T>, c: seq<T>)
    ensures (a + b) + c == a + (b + c) && a + [] == a && [] + b == b
  {}

  lemma OverAndTaken<V(!new)>(p: Parser<V>, pieces: seq<Piece<V>>, behind: string)
    requires pieces != []
    ensures Taken(Over(p, pieces[0], Written(pieces[1..]) + behind), pieces[1..], behind) == Taken(p, pieces, behind)
  {
    Later(pieces);
    hide HasTools, EndsThinking;
    Regroup(p.pushed, Spell(pieces[0]), Written(pieces[1..]));
    hide Print.PrintBlock, Print.CallsOf;
    Regroup(p.expected, CallsIn(pieces[0]), CallsOf(pieces[1..]));
  }

  lemma NothingTaken<V(!new)>(p: Parser<V>, behind: string)
    requires p.pending == "" + behind
    ensures Taken(p, [], behind) == p
  {
    assert p.pushed + "" == p.pushed && p.expected + [] == p.expected && "" + behind == behind;
  }

  lemma OverIs<V(!new)>(p: Parser<V>, piece: Piece<V>, behind: string)
    ensures var q := Over(p, piece, behind);
      q.pending == behind && q.stopped == p.stopped && q.afterTools == (p.afterTools || piece.Tools?)
  {}

  lemma {:induction false} ParsePieces<V(!new)>(cfg: Config<V>, p: Parser<V>, pieces: seq<Piece<V>>, behind: string)
    requires p.pending == Written(pieces) + behind && !p.stopped && Legal(cfg, pieces, p.afterTools, behind)
    ensures Parse(cfg, p) == Parse(cfg, Taken(p, pieces, behind))
    decreases |pieces|
  {
    if pieces == [] {
      NothingTaken(p, behind);
    } else {
      var rest := Written(pieces[1..]) + behind;
      Regroup(Spell(pieces[0]), Written(pieces[1..]), behind);
      assert p.pending == Spell(pieces[0]) + rest;
      hide Parse, LegalPiece, Taken, Over, Spell;
      TakePiece(cfg, p, pieces[0], rest);
      OverIs(p, pieces[0], rest);
      ParsePieces(cfg, Over(p, pieces[0], rest), pieces[1..], behind);
      OverAndTaken(p, pieces, behind);
    }
  }

  // ---------------------------------------------------------------- the ending

  /** What becomes of a parser in front of an ending. */
  function Ended<V>(p: Parser<V>, e: Ending): Result<Parser<V>> {
    match e
    case Nothing => Ok(p)
    case Stop(behind) => Ok(p.(pushed := p.pushed + EOS, pending := behind, stopped := true))
    case Hold(_) => Ok(p)
    case Break(_) => Fail
  }

  lemma EndStop<V(!new)>(cfg: Config<V>, p: Parser<V>, behind: string)
    requires p.pending == EOS + behind && !p.stopped
    ensures Parse(cfg, p) == Ended(p, Stop(behind))
  {
    ThirdTells(p.pending, 2);
    assert p.pending[|EOS|..] == behind;
    var q := Ended(p, Stop(behind)).value;
    hide Candidate, PartOf, FirstOf;
    ParseStep(cfg, p, q);
    ParseStops(cfg, q);
  }

  lemma EndHold<V(!new)>(cfg: Config<V>, p: Parser<V>)
    requires Unfinished(p.pending) || (OPEN <= p.pending && FindEndCalls(p.pending, 0).None?)
    ensures Parse(cfg, p) == Ok(p)
  {
    if Unfinished(p.pending) {
      var m :| m in MARKERS && p.pending < m;
      PartOfThis(MARKERS, p.pending, m);
      MarksOpen(m);
    } else {
      ThirdTells(p.pending, 0);
    }
    hide PartOf, FirstOf, FindEndCalls;
    ParseStops(cfg, p);
  }

  lemma EndAfterTools<V(!new)>(cfg: Config<V>, p: Parser<V>)
    requires p.pending != "" && !p.stopped && p.afterTools && NoMark(p.pending) && !IsSpace(p.pending[0])
    ensures Parse(cfg, p) == Fail
  {
    CandidateIs(p.pending);
    hide Candidate;
    ParseFails(cfg, p);
  }

  lemma EndForbidden<V(!new)>(cfg: Config<V>, p: Parser<V>)
    requires p.pending != "" && !p.stopped && Forbidden(p.pending)
    ensures Parse(cfg, p) == Fail
  {
    ForbiddenFirst(p.pending);
    hide Candidate, PartOf, FirstOf, Forbidden;
    ParseFails(cfg, p);
  }

  lemma ForbiddenFirst(rest: string)
    requires rest != "" && Forbidden(rest)
    ensures Candidate(rest) && !PartOf(MARKERS, rest) && FirstOf(MARKERS, rest).Some?
    ensures var m := FirstOf(MARKERS, rest).value; m != OPEN && m != END_THINK && m != EOS
  {
    if PartOf(MARKERS, rest) { var m := PartOfSome(MARKERS, rest); }
    var m := if THINK <= rest then THINK else if END_SERVICE <= rest then END_SERVICE else SERVICE;
    assert m in MARKERS && m <= rest && rest[0] == m[0] && rest[1] == m[1];
    FirstOfSome(MARKERS, rest, m);
    hide PartOf, FirstOf;
    SecondTells(rest, m, FirstOf(MARKERS, rest).value);
  }

  lemma SecondTells(rest: string, m: string, f: string)
    requires f <= rest && m <= rest && (m == THINK || m == END_SERVICE || (m == SERVICE && !(OPEN <= rest) && !(EOS <= rest)))
    ensures f != OPEN && f != END_THINK && f != EOS
  {
    if m == THINK {
      assert rest[1] == 't';
    } else if m == END_SERVICE {
      assert rest[1] == '/' && rest[2] == '\U{FF5C}';
    } else {
      assert rest[1] == '\U{FF5C}';
    }
  }

  lemma BlockFound<V(!new)>(cfg: Config<V>, text: string, n: nat) returns (b: Print.Block<V>)
    requires BlockOf(text, n) && n <= |text| && Validate(cfg.codec, cfg.tools, text[..n]).Ok?
    ensures Print.LegalBlock(cfg.codec, cfg.tools, b) && Print.PrintBlock(b) == text[..n]
  {
    hide Validate, FindEndCalls, Print.LegalBlock, Print.PrintBlock, Exact.Complete;
    Exact.CutCompletes(text);
    b := Exact.FindBlock(cfg.codec, cfg.tools, text[..n]);
  }

  lemma EndInvalid<V(!new)>(cfg: Config<V>, p: Parser<V>, n: nat)
    requires p.pending != "" && !p.stopped && n <= |p.pending|
    requires BlockOf(p.pending, n) && Malformed(cfg, p.pending[..n])
    ensures Parse(cfg, p) == Fail
  {
    if Validate(cfg.codec, cfg.tools, p.pending[..n]).Ok? { var b := BlockFound(cfg, p.pending, n); }
    BlockStepIs(cfg, p, n);
    hide BlockOf, Validate, Step;
    ParseFails(cfg, p);
  }

  lemma ParseEnding<V(!new)>(cfg: Config<V>, p: Parser<V>, e: Ending)
    requires p.pending == SpellEnding(e) && !p.stopped && LegalEnding(cfg, e, p.afterTools)
    ensures Parse(cfg, p) == Ended(p, e)
  {
    match e
    case Nothing => ParseStops(cfg, p);
    case Stop(behind) => EndStop(cfg, p, behind);
    case Hold(_) => EndHold(cfg, p);
    case Break(rest) =>
      hide Parse, Forbidden, NoMark, BlockOf, Malformed;
      if p.afterTools && NoMark(rest) && !IsSpace(rest[0]) {
        EndAfterTools(cfg, p);
      } else if Forbidden(rest) {
        EndForbidden(cfg, p);
      } else {
        var n: nat :| n <= |rest| && BlockOf(rest, n) && Malformed(cfg, rest[..n]);
        EndInvalid(cfg, p, n);
      }
  }

  // ---------------------------------------------------------------- whole outputs

  /** What the pieces and the ending of an output tell about its result. */
  ghost predicate Tells<V(!new)>(pieces: seq<Piece<V>>, e: Ending, thinking: bool, r: Result<Parser<V>>) {
    if e.Break? then r == Fail else
      && r.Ok?
      && r.value.pushed == Written(pieces) + (if e.Stop? then EOS else "")
      && r.value.expected == CallsOf(pieces)
      && r.value.inReasoning == (thinking && !EndsThinking(pieces))
      && r.value.afterTools == HasTools(pieces)
      && r.value.stopped == e.Stop?
      && (!r.value.stopped ==> r.value.pending == SpellEnding(e))
  }

  /** The text is written as these pieces and this ending. */
  ghost predicate IsWritten<V(!new)>(cfg: Config<V>, text: string, pieces: seq<Piece<V>>, e: Ending, after: bool) {
    && text == Written(pieces) + SpellEnding(e)
    && Legal(cfg, pieces, after, SpellEnding(e)) && LegalEnding(cfg, e, after || HasTools(pieces))
  }

  /**
   For any cutting of an output written as plain text, ends of the reasoning, valid blocks and an ending:
   pushed is the text up to the ending, with the end marker if there is one; the calls of the blocks are
   expected, in order; and the flags are as written. The ending in an error fails.
   */
  lemma OutputTells<V(!new)>(cfg: Config<V>, thinking: bool, chunks: seq<string>, pieces: seq<Piece<V>>, e: Ending)
    requires IsWritten(cfg, Flatten(chunks), pieces, e, false)
    ensures Tells(pieces, e, thinking, FedAll(cfg, Start(thinking), chunks))
  {
    var text := Flatten(chunks);
    var p := Start<V>(thinking).(pending := text);
    assert Start<V>(thinking).pending + text == text;
    FedAllAtOnce(cfg, Start<V>(thinking), chunks);
    hide Parse, Legal, LegalEnding, Written, CallsOf, HasTools, EndsThinking, FedAll, Flatten, Tells;
    assert Same(FedAll(cfg, Start(thinking), chunks), Parse(cfg, p));
    ParsePieces(cfg, p, pieces, SpellEnding(e));
    ParseEnding(cfg, Taken(p, pieces, SpellEnding(e)), e);
    EndedTells(p, pieces, e, thinking, FedAll(cfg, Start(thinking), chunks));
  }

  lemma EndedTells<V(!new)>(p: Parser<V>, pieces: seq<Piece<V>>, e: Ending, thinking: bool, r: Result<Parser<V>>)
    requires p.pushed == "" && p.expected == [] && p.inReasoning == thinking && !p.afterTools && !p.stopped
    requires Same(r, Ended(Taken(p, pieces, SpellEnding(e)), e))
    ensures Tells(pieces, e, thinking, r)
  {
    hide Written, CallsOf, HasTools, EndsThinking;
    Regroup("", Written(pieces), "");
    Regroup([], CallsOf(pieces), []);
  }

  lemma WrittenFirst<V(!new)>(cfg: Config<V>, piece: Piece<V>, text: string, rest: string, pieces: seq<Piece<V>>, e: Ending, after: bool)
    requires text == Spell(piece) + rest && LegalPiece(cfg, piece, after, rest)
    requires IsWritten(cfg, rest, pieces, e, after || piece.Tools?)
    ensures IsWritten(cfg, text, [piece] + pieces, e, after)
  {
    hide LegalPiece, LegalEnding;
    var all := [piece] + pieces;
    assert all[1..] == pieces;
    Later(all);
    hide HasTools, SpellEnding, Spell;
    Regroup(Spell(piece), Written(pieces), SpellEnding(e));
  }

  /** `text` begins with this piece, or is this ending. */
  ghost predicate Begins<V(!new)>(cfg: Config<V>, text: string, after: bool, piece: Option<Piece<V>>, e: Ending) {
    match piece
    case None => text == SpellEnding(e) && LegalEnding(cfg, e, after)
    case Some(x) => Spell(x) != "" && Spell(x) <= text && LegalPiece(cfg, x, after, text[|Spell(x)|..])
  }

  lemma BeginRun<V(!new)>(cfg: Config<V>, text: string, after: bool)
    requires text != "" && NoMark(text) && (after ==> IsSpace(text[0]))
    ensures Begins(cfg, text, after, Some(Run([text[0]])), Nothing)
  {
    assert text == [text[0]] + text[1..] && text[0..] == text;
    hide NoMark, IsSpace;
  }

  lemma BeginTools<V(!new)>(cfg: Config<V>, text: string, after: bool, n: nat, b: Print.Block<V>)
    requires BlockOf(text, n) && n <= |text| && Print.LegalBlock(cfg.codec, cfg.tools, b) && Print.PrintBlock(b) == text[..n]
    ensures Begins(cfg, text, after, Some(Tools(b)), Nothing)
  {
    BlockIsText(text, n);
    hide Print.LegalBlock, Print.PrintBlock, BlockOf;
  }

  lemma BlockIsText(text: string, n: nat)
    requires BlockOf(text, n)
    ensures 0 < n <= |text| && OPEN <= text
  {}

  lemma BeginBlock<V(!new)>(cfg: Config<V>, text: string, after: bool) returns (piece: Option<Piece<V>>, e: Ending)
    requires OPEN <= text
    ensures Begins(cfg, text, after, piece, e)
  {
    var closing := FindEndCalls(text, 0);
    if closing.None? { return None, Hold(text); }
    var n := closing.value.1;
    assert BlockOf(text, n);
    hide BlockOf, Print.LegalBlock, Print.PrintBlock;
    if Malformed(cfg, text[..n]) { return None, Break(text); }
    var b: Print.Block<V> :| Print.LegalBlock(cfg.codec, cfg.tools, b) && Print.PrintBlock(b) == text[..n];
    BeginTools(cfg, text, after, n, b);
    return Some(Tools(b)), Nothing;
  }

  lemma BeginMark<V(!new)>(cfg: Config<V>, text: string, after: bool) returns (piece: Option<Piece<V>>, e: Ending)
    requires text != "" && !NoMark(text) && !Unfinished(text) && !(OPEN <= text)
    ensures Begins(cfg, text, after, piece, e)
  {
    if END_THINK <= text {
      return Some(EndThink), Nothing;
    } else if EOS <= text {
      assert text == EOS + text[|EOS|..];
      return None, Stop(text[|EOS|..]);
    } else {
      MarkIsForbidden(text);
      hide Forbidden;
      return None, Break(text);
    }
  }

  lemma MarkIsForbidden(text: string)
    requires text != "" && !NoMark(text) && !Unfinished(text)
    requires !(OPEN <= text) && !(END_THINK <= text) && !(EOS <= text)
    ensures Forbidden(text)
  {
    var m :| m in MARKERS && (m <= text || text < m);
    if m == CLOSE { assert END_SERVICE <= CLOSE && END_SERVICE <= text; }
  }

  lemma Begin<V(!new)>(cfg: Config<V>, text: string, after: bool) returns (piece: Option<Piece<V>>, e: Ending)
    ensures Begins(cfg, text, after, piece, e)
  {
    if text == "" { return None, Nothing; }
    if OPEN <= text {
      piece, e := BeginBlock(cfg, text, after);
    } else if Unfinished(text) {
      return None, Hold(text);
    } else {
      hide Unfinished, Begins;
      if !NoMark(text) {
        piece, e := BeginMark(cfg, text, after);
      } else if after && !IsSpace(text[0]) {
        BeginsBroken(cfg, text);
        return None, Break(text);
      } else {
        BeginRun(cfg, text, after);
        return Some(Run([text[0]])), Nothing;
      }
    }
  }

  lemma BeginsBroken<V(!new)>(cfg: Config<V>, text: string)
    requires text != "" && NoMark(text) && !IsSpace(text[0])
    ensures Begins(cfg, text, true, None, Break(text))
  {
    hide NoMark, IsSpace;
  }

  /** Every output is written as pieces and an ending. */
  lemma {:induction false} EveryOutput<V(!new)>(cfg: Config<V>, text: string, after: bool) returns (pieces: seq<Piece<V>>, e: Ending)
    ensures IsWritten(cfg, text, pieces, e, after)
    decreases |text|
  {
    hide LegalPiece, LegalEnding;
    var piece: Option<Piece<V>>;
    piece, e := Begin(cfg, text, after);
    match piece
    case None =>
      assert "" + text == text;
      pieces := [];
    case Some(x) =>
      var rest := text[|Spell(x)|..];
      var more: seq<Piece<V>>;
      more, e := EveryOutput(cfg, rest, after || x.Tools?);
      WrittenFirst(cfg, x, text, rest, more, e, after);
      pieces := [x] + more;
  }

  /**
   An output fails exactly when it is written as pieces that end in text behind tool calls, in a mark
   that may not occur or in a malformed block, however it was cut.
   */
  lemma FailsExactly<V(!new)>(cfg: Config<V>, thinking: bool, chunks: seq<string>)
    ensures FedAll(cfg, Start(thinking), chunks) == Fail <==>
      exists pieces: seq<Piece<V>>, rest: string :: IsWritten(cfg, Flatten(chunks), pieces, Break(rest), false)
  {
    hide IsWritten, FedAll;
    var pieces, e := EveryOutput(cfg, Flatten(chunks), false);
    OutputTells(cfg, thinking, chunks, pieces, e);
    if exists ps: seq<Piece<V>>, rest: string :: IsWritten(cfg, Flatten(chunks), ps, Break(rest), false) {
      var ps: seq<Piece<V>>, rest: string :| IsWritten(cfg, Flatten(chunks), ps, Break(rest), false);
      OutputTells(cfg, thinking, chunks, ps, Break(rest));
    }
  }

  // ---------------------------------------------------------------- the end of the output

  lemma {:induction false} ToolsHaveCalls<V(!new)>(cfg: Config<V>, pieces: seq<Piece<V>>, after: bool, behind: string)
    requires Legal(cfg, pieces, after, behind)
    ensures CallsOf(pieces) != [] <==> HasTools(pieces)
    decreases |pieces|
  {
    if pieces != [] {
      ToolsHaveCalls(cfg, pieces[1..], after || pieces[0].Tools?, behind);
      Later(pieces);
      hide HasTools;
    }
  }

  /** The processor has put together the calls that were written: same names, same typed arguments. */
  predicate Released<V(==)>(released: seq<Call<V>>, written: seq<Call<V>>) {
    && |released| == |written|
    && forall i | 0 <= i < |written| ::
      released[i].name == written[i].name && multiset(released[i].arguments) == multiset(written[i].arguments)
  }

  /**
   How an output ends that has not failed. It was cut by its length if the engine says so, or if a local
   count says so and no end marker was read. A cut is reported before tool calls, these before a stop;
   without a cut nothing may be held back, and required calls must be there.
   */
  ghost predicate Finishes<V>(r: Result<Object.Reason>, whole: bool, held: bool, tools: bool, required: bool,
                              released: seq<Call<V>>, written: seq<Call<V>>) {
    && (r == Ok(Object.Length) <==> Released(released, written) && !whole)
    && (r == Ok(Object.ToolCalls) <==> Released(released, written) && whole && !held && tools)
    && (r == Ok(Object.Reason.Stop) <==> released == [] && whole && !held && !tools && !required)
  }

  lemma FinishedIs<V(!new)>(p: Parser<V>, tools: bool, required: bool, length: bool, authoritative: bool, released: seq<Call<V>>)
    requires tools <==> p.expected != []
    ensures Finishes(Object.Finished(p, required, length, authoritative, released), !length || (p.stopped && !authoritative),
                     p.pending != "" && !p.stopped, tools, required, released, p.expected)
  {
    SameIsReleased(released, p.expected);
    hide Released, Object.SameCalls;
  }

  lemma SameIsReleased<V(!new)>(released: seq<Call<V>>, written: seq<Call<V>>)
    ensures Object.SameCalls(released, written) == Released(released, written)
    ensures Released(released, written) ==> |released| == |written|
    ensures written == [] && released == [] ==> Released(released, written)
  {}

  lemma OutputFinishes<V(!new)>(cfg: Config<V>, thinking: bool, chunks: seq<string>, pieces: seq<Piece<V>>, e: Ending,
                                required: bool, length: bool, authoritative: bool, released: seq<Call<V>>)
    requires IsWritten(cfg, Flatten(chunks), pieces, e, false) && !e.Break?
    ensures FedAll(cfg, Start(thinking), chunks).Ok?
    ensures Finishes(Object.Finished(FedAll(cfg, Start(thinking), chunks).value, required, length, authoritative, released),
                     !length || (e.Stop? && !authoritative), e.Hold?, HasTools(pieces), required, released, CallsOf(pieces))
  {
    OutputTells(cfg, thinking, chunks, pieces, e);
    ToolsHaveCalls(cfg, pieces, false, SpellEnding(e));
    if !e.Stop? { HeldIsSome(cfg, e, HasTools(pieces)); }
    hide IsWritten, FedAll, CallsOf, HasTools, SpellEnding, Finishes, Object.Finished;
    FinishedIs(FedAll(cfg, Start(thinking), chunks).value, HasTools(pieces), required, length, authoritative, released);
  }

  lemma HeldIsSome<V(!new)>(cfg: Config<V>, e: Ending, after: bool)
    requires LegalEnding(cfg, e, after) && !e.Break? && !e.Stop?
    ensures SpellEnding(e) != "" <==> e.Hold?
  {}
}
