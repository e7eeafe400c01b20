/**
 Media orchestration (gateway/vllm_media.py): cutting texts into windows, halving batches that do
 not fit the model, and reducing notes to few. None of them loses any input.
 */
module MediaReduce {
  import opened Wrappers
  import opened Text

  // ---------------------------------------------------------------- windows over a text

  function Least(a: int, b: int): int { if a < b then a else b }

  function Most(a: int, b: int): int { if a < b then b else a }

  /** The last newline or space in `text[from..end]`, or -1. */
  function LastBreak(text: string, from: nat, end: nat): (r: int)
    requires from <= end <= |text|
    ensures r == -1 || (from <= r < end && (text[r] == '\n' || text[r] == ' '))
    ensures forall k | from <= k < end && k > r :: text[k] != '\n' && text[k] != ' '
    decreases end
  {
    if from == end then -1
    else if text[end - 1] == '\n' || text[end - 1] == ' ' then end - 1
    else LastBreak(text, from, end - 1)
  }

  /** Where the window that starts at `cursor` ends: at a break in its second half, if there is one. */
  function WindowEnd(text: string, cursor: nat, size: nat): (end: nat)
    requires cursor < |text| && size >= 2
    ensures cursor < end <= |text| && end <= cursor + size
    ensures end < |text| ==> end > cursor + size / 2
  {
    var end := Least(cursor + size, |text|);
    if end == |text| then end else
      var boundary := LastBreak(text, cursor, end);
      if boundary > cursor + size / 2 then boundary else end
  }

  /** Windows that start at the beginning, overlap or touch, move forward, are bounded, and reach the end. */
  predicate Cover(text: string, windows: seq<(nat, nat)>, size: nat) {
    && (windows == [] <==> text == "")
    && (forall k | 0 <= k < |windows| :: windows[k].0 < windows[k].1 <= |text| && windows[k].1 - windows[k].0 <= size)
    && (forall k | 0 < k < |windows| :: windows[k - 1].0 < windows[k].0 <= windows[k - 1].1)
    && (windows != [] ==> windows[0].0 == 0 && windows[|windows| - 1].1 == |text|)
  }

  predicate IsBreak(c: char) { c == '\n' || c == ' ' }

  /**
   Where a window from `cursor` ends: at the end of the text within its size; otherwise at the last break
   in its second half, or at its full size if there is none.
   */
  predicate Stops(text: string, cursor: nat, end: nat, size: nat) {
    if |text| <= cursor + size then end == |text|
    else
      && cursor + size / 2 < end <= cursor + size
      && (end < cursor + size ==> IsBreak(text[end]))
      && forall k | cursor + size / 2 < k < cursor + size && (k > end || end == cursor + size) :: !IsBreak(text[k])
  }

  /** Each window ends like that; the next one starts the overlap before its end, but further on than it did. */
  predicate Stepped(text: string, windows: seq<(nat, nat)>, size: nat, overlap: nat) {
    && (forall k | 0 <= k < |windows| :: Stops(text, windows[k].0, windows[k].1, size))
    && forall k | 0 < k < |windows| :: Follows(text, windows, overlap, k)
  }

  predicate Follows(text: string, windows: seq<(nat, nat)>, overlap: nat, k: nat)
    requires 0 < k < |windows|
  {
    windows[k - 1].1 < |text| && windows[k].0 == Follow(windows[k - 1], overlap)
  }

  function Follow(window: (nat, nat), overlap: nat): int {
    Most(window.1 - overlap, window.0 + 1)
  }

  lemma WindowEnds(text: string, cursor: nat, size: nat)
    requires cursor < |text| && size >= 2
    ensures Stops(text, cursor, WindowEnd(text, cursor, size), size)
  {}

  lemma StepsOn(text: string, windows: seq<(nat, nat)>, size: nat, overlap: nat, cursor: nat, end: nat)
    requires Stepped(text, windows, size, overlap) && Stops(text, cursor, end, size)
    requires windows != [] ==> windows[|windows| - 1].1 < |text| && cursor == Follow(windows[|windows| - 1], overlap)
    ensures Stepped(text, windows + [(cursor, end)], size, overlap)
  {
    hide Stops, Follow;
    var all := windows + [(cursor, end)];
    forall k | 0 < k < |all| ensures Follows(text, all, overlap, k) {
      if k < |windows| { assert Follows(text, windows, overlap, k); }
    }
  }

  predicate InWindow(windows: seq<(nat, nat)>, i: nat) {
    exists k | 0 <= k < |windows| :: windows[k].0 <= i < windows[k].1
  }

  /** Each character lies in a window. */
  lemma {:induction false} EveryCharacterCovered(text: string, windows: seq<(nat, nat)>, size: nat, i: nat, n: nat)
    requires Cover(text, windows, size) && n < |windows| && i < windows[n].1
    ensures InWindow(windows, i)
    decreases n
  {
    if i < windows[n].0 {
      assert n > 0;
      EveryCharacterCovered(text, windows, size, i, n - 1);
    }
  }

  /** A window's text without the spaces around it. */
  function Stripped(s: string): (r: string)
    ensures |r| <= |s|
  {
    RStrip(s)[SkipSpace(RStrip(s), 0)..]
  }

  /** The windows' texts, without those that are blank. */
  function Texts(text: string, windows: seq<(nat, nat)>): seq<string>
    requires Inside(text, windows)
  {
    if windows == [] then [] else
      var n := |windows| - 1;
      Texts(text, windows[..n]) + Shown(Stripped(text[windows[n].0..windows[n].1]))
  }

  function Shown(s: string): seq<string> {
    if s == "" then [] else [s]
  }

  /** Windows so far, none of which reaches the end; the next one starts at `cursor`. */
  predicate Covering(text: string, windows: seq<(nat, nat)>, size: nat, cursor: nat) {
    && (forall k | 0 <= k < |windows| :: windows[k].0 < windows[k].1 < |text| && windows[k].1 - windows[k].0 <= size)
    && (forall k | 0 < k < |windows| :: windows[k - 1].0 < windows[k].0 <= windows[k - 1].1)
    && (windows == [] ==> cursor == 0)
    && (windows != [] ==> windows[0].0 == 0 && windows[|windows| - 1].0 < cursor <= windows[|windows| - 1].1)
  }

  lemma NextWindow(text: string, windows: seq<(nat, nat)>, size: nat, cursor: nat, end: nat, next: nat)
    requires Covering(text, windows, size, cursor) && cursor < end < |text| && end <= cursor + size && cursor < next <= end
    ensures Covering(text, windows + [(cursor, end)], size, next)
  {
    var all := windows + [(cursor, end)];
    forall k | 0 < k < |all| ensures all[k - 1].0 < all[k].0 <= all[k - 1].1 {
      if k < |windows| { assert windows[k - 1].0 < windows[k].0 <= windows[k - 1].1; }
    }
  }

  lemma LastWindow(text: string, windows: seq<(nat, nat)>, size: nat, cursor: nat)
    requires Covering(text, windows, size, cursor) && cursor < |text| <= cursor + size
    ensures Cover(text, windows + [(cursor, |text|)], size)
  {
    var all := windows + [(cursor, |text|)];
    forall k | 0 < k < |all| ensures all[k - 1].0 < all[k].0 <= all[k - 1].1 {
      if k < |windows| { assert windows[k - 1].0 < windows[k].0 <= windows[k - 1].1; }
    }
  }

  /** The windows lie in the text. */
  predicate Inside(text: string, windows: seq<(nat, nat)>) {
    forall k | 0 <= k < |windows| :: windows[k].0 <= windows[k].1 <= |text|
  }

  lemma TextOfNext(text: string, windows: seq<(nat, nat)>, cursor: nat, end: nat)
    requires Inside(text, windows) && cursor <= end <= |text|
    ensures Inside(text, windows + [(cursor, end)])
    ensures Texts(text, windows + [(cursor, end)]) == Texts(text, windows) + Shown(Stripped(text[cursor..end]))
  {
    hide Stripped;
    assert (windows + [(cursor, end)])[..|windows|] == windows;
  }

  /** Where the window after the one at `cursor` starts. */
  lemma NextStart(text: string, cursor: nat, size: nat, overlap: nat)
    requires cursor < |text| && size >= 2 && overlap <= size / 2
    ensures var end := WindowEnd(text, cursor, size); cursor < Most(end - overlap, cursor + 1) <= end
  {}

  predicate Chunked(text: string, windows: seq<(nat, nat)>, chunks: seq<string>, size: nat, cursor: nat) {
    Covering(text, windows, size, cursor) && Inside(text, windows) && chunks == Texts(text, windows)
  }

  lemma ChunkTaken(text: string, windows: seq<(nat, nat)>, chunks: seq<string>, size: nat, cursor: nat, next: nat, chunk: string)
    requires cursor < |text| && size >= 2 && Chunked(text, windows, chunks, size, cursor)
    requires cursor < next <= WindowEnd(text, cursor, size) && chunk == Stripped(text[cursor..WindowEnd(text, cursor, size)])
    ensures var end := WindowEnd(text, cursor, size);
      var all, texts := windows + [(cursor, end)], if chunk == "" then chunks else chunks + [chunk];
      && Inside(text, all) && texts == Texts(text, all)
      && if end < |text| then Chunked(text, all, texts, size, next) else Cover(text, all, size)
  {
    hide Covering, Cover, Stripped, Inside, Texts, WindowEnd;
    var end := WindowEnd(text, cursor, size);
    TextOfNext(text, windows, cursor, end);
    if end < |text| { NextWindow(text, windows, size, cursor, end, next); } else { LastWindow(text, windows, size, cursor); }
  }

  lemma NoSteps(text: string, size: nat, overlap: nat)
    ensures Stepped(text, [], size, overlap)
  {}

  lemma FollowIs(cursor: nat, end: nat, overlap: nat)
    ensures Follow((cursor, end), overlap) == Most(end - overlap, cursor + 1)
  {}

  /** The loop of `_build_pdf_text_chunks` over one page. */
  method Cut(text: string, size: nat, overlap: nat) returns (chunks: seq<string>, ghost windows: seq<(nat, nat)>)
    requires text != "" && size >= 2 && overlap <= size / 2
    ensures Cover(text, windows, size) && Inside(text, windows) && chunks == Texts(text, windows)
    ensures Stepped(text, windows, size, overlap)
  {
    hide *;
    chunks, windows := [], [];
    NoWindows(text, size);
    NoSteps(text, size, overlap);
    var cursor: nat, more := 0, true;
    while more
      invariant more ==> cursor < |text| && Chunked(text, windows, chunks, size, cursor)
      invariant more && windows != [] ==> windows[|windows| - 1].1 < |text| && cursor == Follow(windows[|windows| - 1], overlap)
      invariant Stepped(text, windows, size, overlap)
      invariant !more ==> Cover(text, windows, size) && Inside(text, windows) && chunks == Texts(text, windows)
      decreases more, |text| - cursor
    {
      var end := WindowEnd(text, cursor, size);
      var chunk := Stripped(text[cursor..end]);
      var next := Most(end - overlap, cursor + 1);
      NextStart(text, cursor, size, overlap);
      FollowIs(cursor, end, overlap);
      WindowEnds(text, cursor, size);
      StepsOn(text, windows, size, overlap, cursor, end);
      ChunkTaken(text, windows, chunks, size, cursor, next, chunk);
      if chunk != "" { chunks := chunks + [chunk]; }
      windows := windows + [(cursor, end)];
      more := end < |text|;
      if more { cursor := next; }
    }
  }

  /** `_build_pdf_text_chunks` for one stripped page; sizes are first brought into range. */
  method PageChunks(text: string, chunkChars: int, overlapChars: int) returns (chunks: seq<string>, ghost windows: seq<(nat, nat)>)
    ensures Cover(text, windows, Most(chunkChars, 256)) && Inside(text, windows) && chunks == Texts(text, windows)
    ensures Stepped(text, windows, Most(chunkChars, 256), Least(Most(overlapChars, 0), Most(chunkChars, 256) / 2))
    ensures forall i | 0 <= i < |text| :: InWindow(windows, i)
  {
    var size := Most(chunkChars, 256);
    var overlap := Least(Most(overlapChars, 0), size / 2);
    hide InWindow, Covering, Cover, Inside, Chunked, Texts, Stepped;
    NoWindows(text, size);
    NoSteps(text, size, overlap);
    if text == "" { return [], []; }
    chunks, windows := Cut(text, size, overlap);
    AllCovered(text, windows, size);
  }

  lemma NoWindows(text: string, size: nat)
    ensures Inside(text, []) && Texts(text, []) == [] && Chunked(text, [], [], size, 0)
    ensures text == "" ==> Cover(text, [], size)
  {}

  lemma AllCovered(text: string, windows: seq<(nat, nat)>, size: nat)
    requires Cover(text, windows, size)
    ensures forall i | 0 <= i < |text| :: InWindow(windows, i)
  {
    forall i | 0 <= i < |text| ensures InWindow(windows, i) {
      EveryCharacterCovered(text, windows, size, i, |windows| - 1);
    }
  }

  /** A text without its spaces. */
  function Squeezed(s: string): string {
    if s == "" then "" else (if IsSpace(s[0]) then "" else [s[0]]) + Squeezed(s[1..])
  }

  function SqueezedAll(chunks: seq<string>): string {
    if chunks == [] then "" else SqueezedAll(chunks[..|chunks| - 1]) + Squeezed(chunks[|chunks| - 1])
  }

  lemma {:induction false} SqueezeAppend(a: string, b: string)
    ensures Squeezed(a + b) == Squeezed(a) + Squeezed(b)
  {
    if a == "" {
      assert a + b == b;
    } else {
      assert (a + b)[1..] == a[1..] + b;
      SqueezeAppend(a[1..], b);
    }
  }

  lemma {:induction false} SqueezeSpaces(s: string)
    requires AllSpace(s, 0, |s|)
    ensures Squeezed(s) == ""
  {
    if s != "" { SqueezeSpaces(s[1..]); }
  }

  lemma SqueezeSuffix(s: string, n: nat)
    requires n <= |s| && AllSpace(s, n, |s|)
    ensures Squeezed(s) == Squeezed(s[..n])
  {
    hide Squeezed;
    assert s == s[..n] + s[n..];
    SqueezeAppend(s[..n], s[n..]);
    SqueezeSpaces(s[n..]);
  }

  lemma SqueezePrefix(s: string, n: nat)
    requires n <= |s| && AllSpace(s, 0, n)
    ensures Squeezed(s) == Squeezed(s[n..])
  {
    hide Squeezed;
    assert s == s[..n] + s[n..];
    SqueezeAppend(s[..n], s[n..]);
    SqueezeSpaces(s[..n]);
  }

  /** Stripping takes away nothing but spaces. */
  lemma SqueezeStripped(s: string)
    ensures Squeezed(Stripped(s)) == Squeezed(s)
  {
    hide RStrip, SkipSpace, Squeezed, AllSpace;
    var r := RStrip(s);
    SqueezeSuffix(s, |r|);
    assert s[..|r|] == r;
    SqueezePrefix(r, SkipSpace(r, 0));
  }

  /** `_split_text` on a stripped text: the chunks hold every character that is no space, once and in order. */
  method SplitText(text: string, chunkChars: int) returns (chunks: seq<string>)
    ensures SqueezedAll(chunks) == Squeezed(text)
    ensures forall c | c in chunks :: |c| <= Most(chunkChars, 256)
    ensures |text| > Most(chunkChars, 256) ==> forall c | c in chunks :: c != ""
  {
    hide Stripped, Squeezed, LastBreak;
    var size := Most(chunkChars, 256);
    if |text| <= size {
      assert SqueezedAll([text]) == Squeezed(text) by { assert [text][..0] == []; }
      return [text];
    }
    chunks := [];
    var cursor := 0;
    SqueezeNothing();
    while cursor < |text|
      invariant cursor <= |text| && SqueezedAll(chunks) == Squeezed(text[..cursor])
      invariant forall c | c in chunks :: c != "" && |c| <= size
      decreases |text| - cursor
    {
      var end := WindowEnd(text, cursor, size);
      var piece := text[cursor..end];
      var chunk := Stripped(piece);
      assert text[..end] == text[..cursor] + piece;
      SqueezeAppend(text[..cursor], piece);
      SqueezeStripped(piece);
      // The source drops blank chunks in a last pass; here each is left out where it arises.
      if chunk != "" {
        assert (chunks + [chunk])[..|chunks|] == chunks;
        chunks := chunks + [chunk];
      }
      cursor := end;
    }
    assert text[..|text|] == text;
  }

  lemma SqueezeNothing()
    ensures Squeezed("") == ""
  {}

  // ---------------------------------------------------------------- halving

  /** What the model makes of a batch. */
  datatype Outcome = Written(text: string) | TooLong | Broken

  /** `_summarize_visual_chunk_adaptive`: each summary with the items it stands for. */
  function Adaptive<T>(items: seq<T>, model: seq<T> -> Outcome): Result<seq<(seq<T>, string)>>
    decreases |items|
  {
    match model(items)
    case Written(text) => Ok([(items, text)])
    case Broken => Fail
    case TooLong =>
      if |items| <= 1 then Fail else
        var middle := |items| / 2;
        match (Adaptive(items[..middle], model), Adaptive(items[middle..], model))
        case (Ok(left), Ok(right)) => Ok(left + right)
        case _ => Fail
  }

  function Concat<T>(parts: seq<(seq<T>, string)>): seq<T> {
    if parts == [] then [] else parts[0].0 + Concat(parts[1..])
  }

  lemma {:induction false} ConcatAppend<T>(a: seq<(seq<T>, string)>, b: seq<(seq<T>, string)>)
    ensures Concat(a + b) == Concat(a) + Concat(b)
  {
    if a == [] {
      assert a + b == b;
    } else {
      assert (a + b)[1..] == a[1..] + b;
      ConcatAppend(a[1..], b);
    }
  }

  /** `part` is a stretch of `whole`. */
  predicate Stretch<T(==)>(whole: seq<T>, part: seq<T>, at: nat) {
    at + |part| <= |whole| && whole[at..at + |part|] == part
  }

  lemma ConcatOne<T>(items: seq<T>, text: string)
    ensures Concat([(items, text)]) == items
  {
    assert [(items, text)][1..] == [] && items + [] == items;
  }

  /** A failure is due to one stretch of the items: the model broke on it, or it is a single item that is too long. */
  predicate Culprit<T(==)>(items: seq<T>, model: seq<T> -> Outcome, at: nat, part: seq<T>) {
    Stretch(items, part, at) && (model(part).Broken? || (model(part).TooLong? && |part| <= 1))
  }

  lemma CulpritOfHalf<T>(items: seq<T>, model: seq<T> -> Outcome, middle: nat, right: bool, at: nat, part: seq<T>)
    requires middle <= |items| && Culprit(if right then items[middle..] else items[..middle], model, at, part)
    ensures Culprit(items, model, if right then middle + at else at, part)
  {
    if right {
      assert items[middle..][at..at + |part|] == items[middle + at..middle + at + |part|];
    } else {
      assert items[..middle][at..at + |part|] == items[at..at + |part|];
    }
  }

  /** The parts are the items in order, and each summary was written for its part. */
  ghost predicate Partitions<T>(items: seq<T>, model: seq<T> -> Outcome, parts: seq<(seq<T>, string)>) {
    && parts != [] && Concat(parts) == items
    && (forall p | p in parts :: model(p.0) == Written(p.1) && (items != [] ==> p.0 != []))
  }

  lemma PartitionsJoin<T>(items: seq<T>, model: seq<T> -> Outcome, middle: nat, a: seq<(seq<T>, string)>, b: seq<(seq<T>, string)>)
    requires 0 < middle < |items| && Partitions(items[..middle], model, a) && Partitions(items[middle..], model, b)
    ensures Partitions(items, model, a + b)
  {
    ConcatAppend(a, b);
    assert items[..middle] + items[middle..] == items;
  }

  /** The summaries partition the items in order, and each was written for its part; a failure is due to one stretch. */
  lemma {:induction false} HalvingPartitions<T>(items: seq<T>, model: seq<T> -> Outcome) returns (at: nat, part: seq<T>)
    ensures Adaptive(items, model).Ok? ==> Partitions(items, model, Adaptive(items, model).value)
    ensures Adaptive(items, model).Fail? ==> Culprit(items, model, at, part)
    decreases |items|
  {
    at, part := 0, items;
    assert items[0..|items|] == items;
    if model(items).Written? {
      ConcatOne(items, model(items).text);
    } else if model(items).TooLong? && |items| > 1 {
      hide Partitions, Culprit;
      var middle := |items| / 2;
      var at0, part0 := HalvingPartitions(items[..middle], model);
      var at1, part1 := HalvingPartitions(items[middle..], model);
      if Adaptive(items[..middle], model).Fail? {
        at, part := at0, part0;
        CulpritOfHalf(items, model, middle, false, at0, part0);
      } else if Adaptive(items[middle..], model).Fail? {
        at, part := middle + at1, part1;
        CulpritOfHalf(items, model, middle, true, at1, part1);
      } else {
        PartitionsJoin(items, model, middle, Adaptive(items[..middle], model).value, Adaptive(items[middle..], model).value);
      }
    }
  }

  // ---------------------------------------------------------------- reducing

  datatype Note = Note(title: string, text: string)

  /** The model that joins notes, with the instruction for a single note if `alone`; it may fail. */
  type Writer = (bool, seq<Note>) -> Option<string>

  predicate Fails(write: Writer, alone: bool, group: seq<Note>) {
    group != [] && write(alone, group).None?
  }

  /** How a note came about: it is an input, or it was written from the notes of its parts. */
  datatype Origin = Input(index: nat) | Joint(alone: bool, parts: seq<Origin>)

  /** What labels the written notes: one label for all if `forced`. */
  datatype Labels = Labels(forced: bool, document: string)

  /** A group's note: its label names the first and the last note of the group, unless one label is forced. */
  function Composed(write: Writer, labels: Labels, alone: bool, group: seq<Note>): Option<Note> {
    if group == [] || write(alone, group).None? then None
    else
      var title := if alone || labels.forced then labels.document
                   else "Reduced notes: " + group[0].title + " - " + group[|group| - 1].title;
      Some(Note(title, write(alone, group).value))
  }

  lemma ComposedFails(write: Writer, labels: Labels, alone: bool, group: seq<Note>)
    ensures Composed(write, labels, alone, group).None? <==> group == [] || Fails(write, alone, group)
  {}

  /** The note of that origin, for given inputs. */
  function Made(o: Origin, inputs: seq<Note>, write: Writer, labels: Labels): Option<Note> {
    match o
    case Input(i) => if i < |inputs| then Some(inputs[i]) else None
    case Joint(alone, parts) =>
      var group := MadeAll(parts, inputs, write, labels);
      if group.None? then None else Composed(write, labels, alone, group.value)
  }

  function MadeAll(os: seq<Origin>, inputs: seq<Note>, write: Writer, labels: Labels): (r: Option<seq<Note>>)
    ensures r.Some? ==> |r.value| == |os|
  {
    if os == [] then Some([])
    else
      var first, rest := Made(os[0], inputs, write, labels), MadeAll(os[1..], inputs, write, labels);
      if first.None? || rest.None? then None else Some([first.value] + rest.value)
  }

  /** The inputs that went into a note, in order. */
  function Leaves(o: Origin): seq<nat> {
    match o
    case Input(i) => [i]
    case Joint(_, parts) => LeavesAll(parts)
  }

  function LeavesAll(os: seq<Origin>): seq<nat> {
    if os == [] then [] else Leaves(os[0]) + LeavesAll(os[1..])
  }

  function Numbers(from: nat, to: nat): (r: seq<nat>)
    requires from <= to
    ensures |r| == to - from && forall k | 0 <= k < |r| :: r[k] == from + k
  {
    seq(to - from, k requires 0 <= k => from + k)
  }

  /** The notes come from those origins, and the origins use every input once and in order. */
  ghost predicate Accounts(os: seq<Origin>, result: seq<Note>, inputs: seq<Note>, write: Writer, labels: Labels) {
    MadeAll(os, inputs, write, labels) == Some(result) && LeavesAll(os) == Numbers(0, |inputs|)
  }

  lemma {:induction false} LeavesAppend(a: seq<Origin>, b: seq<Origin>)
    ensures LeavesAll(a + b) == LeavesAll(a) + LeavesAll(b)
  {
    if a == [] {
      assert a + b == b;
    } else {
      assert (a + b)[0] == a[0] && (a + b)[1..] == a[1..] + b;
      LeavesAppend(a[1..], b);
    }
  }

  /** Nothing comes from nothing. */
  lemma {:induction false} MadeUses(o: Origin, inputs: seq<Note>, write: Writer, labels: Labels)
    requires Made(o, inputs, write, labels).Some?
    ensures Leaves(o) != []
  {
    if o.Joint? { MadeUses(o.parts[0], inputs, write, labels); }
  }

  /** Each note stands for a block of the inputs that is not empty, and the blocks lie one behind the other. */
  lemma BlocksTile(os: seq<Origin>, result: seq<Note>, inputs: seq<Note>, write: Writer, labels: Labels, k: nat)
    requires Accounts(os, result, inputs, write, labels) && k < |os|
    ensures var from, to := |LeavesAll(os[..k])|, |LeavesAll(os[..k + 1])|;
      from < to <= |inputs| && Leaves(os[k]) == Numbers(from, to)
  {
    MadeAllAt(os, inputs, write, labels, k);
    MadeUses(os[k], inputs, write, labels);
    hide Leaves, LeavesAll, Made, MadeAll, Numbers;
    LeavesWithin(os, k);
    NumbersWithin(|inputs|, |LeavesAll(os[..k])|, |LeavesAll(os[..k + 1])|);
  }

  lemma NumbersWithin(n: nat, from: nat, to: nat)
    requires from <= to <= n
    ensures Numbers(0, n)[from..to] == Numbers(from, to)
  {}

  lemma LeavesWithin(os: seq<Origin>, k: nat)
    requires k < |os|
    ensures var from, to := |LeavesAll(os[..k])|, |LeavesAll(os[..k + 1])|;
      from <= to <= |LeavesAll(os)| && Leaves(os[k]) == LeavesAll(os)[from..to]
  {
    hide Leaves, LeavesAll;
    assert os[..k + 1] == os[..k] + [os[k]] && os == os[..k + 1] + os[k + 1..];
    LeavesOfOne(os[k]);
    LeavesAppend(os[..k], [os[k]]);
    LeavesAppend(os[..k + 1], os[k + 1..]);
  }

  lemma LeavesOfOne(o: Origin)
    ensures LeavesAll([o]) == Leaves(o)
  {
    assert [o][1..] == [] && Leaves(o) + [] == Leaves(o);
  }

  lemma {:induction false} MadeAllAt(os: seq<Origin>, inputs: seq<Note>, write: Writer, labels: Labels, k: nat)
    requires MadeAll(os, inputs, write, labels).Some? && k < |os|
    ensures Made(os[k], inputs, write, labels) == Some(MadeAll(os, inputs, write, labels).value[k])
  {
    if k > 0 { MadeAllAt(os[1..], inputs, write, labels, k - 1); }
  }

  lemma {:induction false} MadeAllIs(os: seq<Origin>, inputs: seq<Note>, write: Writer, labels: Labels, result: seq<Note>)
    requires |os| == |result| && forall k | 0 <= k < |os| :: Made(os[k], inputs, write, labels) == Some(result[k])
    ensures MadeAll(os, inputs, write, labels) == Some(result)
  {
    if os != [] {
      assert forall k | 0 <= k < |os| - 1 :: os[1..][k] == os[k + 1] && result[1..][k] == result[k + 1];
      MadeAllIs(os[1..], inputs, write, labels, result[1..]);
      assert result == [result[0]] + result[1..];
    }
  }

  // ---------------------------------------------------------------- one round

  /** The groups of `size` elements: as many as begin before the end. */
  function GroupCount(n: nat, size: nat): nat
    requires size > 0
  {
    (n + size - 1) / size
  }

  function GroupStart(n: nat, size: nat, k: nat): (r: nat)
    ensures r <= n
  {
    Least(k * size, n)
  }

  function Group<T>(all: seq<T>, size: nat, k: nat): seq<T> {
    if GroupStart(|all|, size, k) < GroupStart(|all|, size, k + 1)
    then all[GroupStart(|all|, size, k)..GroupStart(|all|, size, k + 1)]
    else []
  }

  lemma GroupsEnd(n: nat, size: nat)
    requires size > 0
    ensures GroupStart(n, size, 0) == 0 && GroupStart(n, size, GroupCount(n, size)) == n
    ensures size >= 2 && n >= 2 ==> 1 <= GroupCount(n, size) < n
  {
    var q, m := GroupCount(n, size), n + size - 1;
    assert q * size + m % size == m;
    if size >= 2 && n >= 2 {
      ProductLarge(n, size);
      if q >= n { Product(q, n, size); }
    }
  }

  lemma Product(a: nat, b: nat, size: nat)
    requires a >= b
    ensures a * size >= b * size
  {}

  lemma ProductLarge(a: nat, b: nat)
    requires a >= 2 && b >= 2
    ensures a * b >= a + b
  {
    assert (a - 1) * (b - 1) == a * b - a - b + 1;
    Product(a - 1, 1, b - 1);
  }

  /** Group after group, the elements are all there. */
  lemma GroupStarts(n: nat, size: nat, k: nat)
    requires size > 0 && k < GroupCount(n, size)
    ensures GroupStart(n, size, k) < GroupStart(n, size, k + 1)
  {
    var q, m := GroupCount(n, size), n + size - 1;
    assert q * size + m % size == m;
    Product(q, k + 1, size);
    assert (k + 1) * size == k * size + size;
  }

  lemma GroupHolds<T>(all: seq<T>, size: nat, k: nat)
    requires size > 0 && k < GroupCount(|all|, size)
    ensures Group(all, size, k) != []
  {
    GroupStarts(|all|, size, k);
  }

  /** What one round does: the note of group `k` is written from `notes[k * size..(k + 1) * size]`. */
  ghost predicate RoundOf(notes: seq<Note>, size: nat, write: Writer, labels: Labels, result: seq<Note>)
    requires size > 0
  {
    |result| == GroupCount(|notes|, size) && RoundBegun(notes, size, write, labels, result)
  }

  ghost predicate RoundBegun(notes: seq<Note>, size: nat, write: Writer, labels: Labels, result: seq<Note>) {
    forall k | 0 <= k < |result| :: Composed(write, labels, false, Group(notes, size, k)) == Some(result[k])
  }

  /** The model fails on a group of the round. */
  ghost predicate RoundFails(notes: seq<Note>, size: nat, write: Writer)
    requires size > 0
  {
    exists k: nat :: k < GroupCount(|notes|, size) && Fails(write, false, Group(notes, size, k))
  }

  lemma RoundBegins(notes: seq<Note>, size: nat, write: Writer, labels: Labels)
    ensures RoundBegun(notes, size, write, labels, [])
  {}

  lemma RoundGrows(notes: seq<Note>, size: nat, write: Writer, labels: Labels, result: seq<Note>, note: Option<Note>)
    requires size > 0 && |result| < GroupCount(|notes|, size) && RoundBegun(notes, size, write, labels, result)
    requires note == Composed(write, labels, false, Group(notes, size, |result|))
    ensures note.Some? ==> RoundBegun(notes, size, write, labels, result + [note.value])
    ensures note.None? ==> Fails(write, false, Group(notes, size, |result|))
  {
    hide Composed, Group, GroupStart, GroupCount, Fails;
    GroupHolds(notes, size, |result|);
    ComposedFails(write, labels, false, Group(notes, size, |result|));
  }

  /** One round: each group of notes becomes one note; it fails if a group cannot be joined. */
  method ReduceGroups(notes: seq<Note>, size: nat, write: Writer, labels: Labels) returns (r: Option<seq<Note>>)
    requires size >= 2 && |notes| >= 2
    ensures r.Some? ==> RoundOf(notes, size, write, labels, r.value) && 1 <= |r.value| < |notes|
    ensures r.None? ==> RoundFails(notes, size, write)
  {
    var result: seq<Note> := [];
    GroupsEnd(|notes|, size);
    hide Composed, Group, GroupCount, GroupStart, Fails, RoundBegun;
    RoundBegins(notes, size, write, labels);
    for k := 0 to GroupCount(|notes|, size)
      invariant |result| == k && RoundBegun(notes, size, write, labels, result)
    {
      var note := Composed(write, labels, false, Group(notes, size, k));
      RoundGrows(notes, size, write, labels, result, note);
      if note.None? { return None; }
      result := result + [note.value];
    }
    return Some(result);
  }

  /** The origins of the notes of a round. */
  function Regrouped(os: seq<Origin>, size: nat): (r: seq<Origin>)
    requires size > 0
    ensures |r| == GroupCount(|os|, size) && forall k | 0 <= k < |r| :: r[k] == Joint(false, Group(os, size, k))
  {
    seq(GroupCount(|os|, size), k requires 0 <= k => Joint(false, Group(os, size, k)))
  }

  lemma RegroupedStep(os: seq<Origin>, size: nat, k: nat)
    requires size > 0 && k < GroupCount(|os|, size)
    ensures var all, from, to := Regrouped(os, size), GroupStart(|os|, size, k), GroupStart(|os|, size, k + 1);
      from <= to && all[..k + 1] == all[..k] + [Joint(false, os[from..to])] && os[..to] == os[..from] + os[from..to]
  {
    GroupStarts(|os|, size, k);
    hide GroupStart;
  }

  lemma {:induction false} RegroupedLeaves(os: seq<Origin>, size: nat, k: nat)
    requires size > 0 && k <= GroupCount(|os|, size)
    ensures LeavesAll(Regrouped(os, size)[..k]) == LeavesAll(os[..GroupStart(|os|, size, k)])
  {
    var all := Regrouped(os, size);
    if k > 0 {
      var from, to := GroupStart(|os|, size, k - 1), GroupStart(|os|, size, k);
      RegroupedLeaves(os, size, k - 1);
      RegroupedStep(os, size, k - 1);
      hide LeavesAll, GroupStart, Regrouped, GroupCount, Group;
      LeavesAppend(all[..k - 1], [Joint(false, os[from..to])]);
      LeavesOfOne(Joint(false, os[from..to]));
      LeavesAppend(os[..from], os[from..to]);
    } else {
      assert all[..0] == [] == os[..0];
    }
  }

  lemma GroupMade(os: seq<Origin>, notes: seq<Note>, inputs: seq<Note>, write: Writer, labels: Labels, size: nat, k: nat)
    requires size > 0 && MadeAll(os, inputs, write, labels) == Some(notes)
    ensures MadeAll(Group(os, size, k), inputs, write, labels) == Some(Group(notes, size, k))
  {
    hide MadeAll, Made, GroupStart;
    forall i | 0 <= i < |os| ensures Made(os[i], inputs, write, labels) == Some(notes[i]) {
      MadeAllAt(os, inputs, write, labels, i);
    }
    MadeAllIs(Group(os, size, k), inputs, write, labels, Group(notes, size, k));
  }

  /** A round keeps account of the inputs. */
  lemma RoundAccounts(os: seq<Origin>, notes: seq<Note>, inputs: seq<Note>, write: Writer, labels: Labels, size: nat, result: seq<Note>)
    requires size > 0 && Accounts(os, notes, inputs, write, labels) && RoundOf(notes, size, write, labels, result)
    ensures Accounts(Regrouped(os, size), result, inputs, write, labels)
  {
    hide MadeAll, LeavesAll, Composed, Group, GroupCount, GroupStart;
    var all := Regrouped(os, size);
    forall k | 0 <= k < |all| ensures Made(all[k], inputs, write, labels) == Some(result[k]) {
      GroupMade(os, notes, inputs, write, labels, size, k);
    }
    MadeAllIs(all, inputs, write, labels, result);
    GroupsEnd(|os|, size);
    RegroupedLeaves(os, size, |all|);
    assert all[..|all|] == all && os[..|os|] == os;
  }

  function Inputs(n: nat): (r: seq<Origin>)
    ensures |r| == n && forall k | 0 <= k < n :: r[k] == Input(k)
  {
    seq(n, k requires 0 <= k => Input(k))
  }

  lemma {:induction false} InputLeaves(n: nat)
    ensures LeavesAll(Inputs(n)) == Numbers(0, n)
  {
    if n > 0 {
      InputLeaves(n - 1);
      assert Inputs(n) == Inputs(n - 1) + [Input(n - 1)];
      LeavesAppend(Inputs(n - 1), [Input(n - 1)]);
      LeavesOfOne(Input(n - 1));
      assert Numbers(0, n) == Numbers(0, n - 1) + [n - 1];
    }
  }

  lemma InputsAccount(notes: seq<Note>, write: Writer, labels: Labels)
    ensures Accounts(Inputs(|notes|), notes, notes, write, labels)
  {
    InputLeaves(|notes|);
    MadeAllIs(Inputs(|notes|), notes, write, labels, notes);
  }

  lemma AloneAccounts(os: seq<Origin>, notes: seq<Note>, inputs: seq<Note>, write: Writer, labels: Labels, note: Note)
    requires Accounts(os, notes, inputs, write, labels) && Composed(write, labels, true, notes) == Some(note)
    ensures Accounts([Joint(true, os)], [note], inputs, write, labels)
  {
    LeavesOfOne(Joint(true, os));
    MadeAllIs([Joint(true, os)], inputs, write, labels, [note]);
  }

  // ---------------------------------------------------------------- all rounds

  /** The settings of a reduction, and what notes cost. */
  datatype Plan = Plan(groupSize: int, finalLimit: int, budget: nat, tokens: seq<Note> -> nat, labels: Labels)

  /** At least two notes go into one. */
  function Size(plan: Plan): (r: nat)
    ensures r >= 2 && r >= plan.groupSize && (r > 2 ==> r == plan.groupSize)
  {
    Most(plan.groupSize, 2)
  }

  /** Two notes at least may remain, unless there must be one. */
  function Limit(plan: Plan): (r: nat)
    ensures if plan.labels.forced then r == 1 else r >= 2 && r >= plan.finalLimit && (r > 2 ==> r == plan.finalLimit)
  {
    if plan.labels.forced then 1 else Most(plan.finalLimit, 2)
  }

  /** These notes are reduced further; a single input is, too, if there must be one label. */
  predicate Unfinished(plan: Plan, inputs: nat, notes: seq<Note>) {
    || |notes| > Limit(plan) || plan.tokens(notes) > plan.budget
    || (plan.labels.forced && inputs == 1)
  }

  /** The origins of the notes after `n` rounds. */
  function After(n: nat, size: nat, inputs: nat): seq<Origin>
    requires size > 0
  {
    if n == 0 then Inputs(inputs) else Regrouped(After(n - 1, size, inputs), size)
  }

  /** The first `n` rounds succeed, and after each but the last of them the notes need another one. */
  ghost predicate Rounds(plan: Plan, notes: seq<Note>, write: Writer, n: nat)
    decreases n
  {
    && MadeAll(After(n, Size(plan), |notes|), notes, write, plan.labels).Some?
    && (n > 0 ==>
      && Rounds(plan, notes, write, n - 1)
      && Unfinished(plan, |notes|, MadeAll(After(n - 1, Size(plan), |notes|), notes, write, plan.labels).value))
  }

  /** After `n` rounds the reduction is done: either nothing is left to do, or the one note left was written anew. */
  ghost predicate Ends(plan: Plan, notes: seq<Note>, write: Writer, n: nat, os: seq<Origin>)
    requires Rounds(plan, notes, write, n)
  {
    var last := After(n, Size(plan), |notes|);
    var result := MadeAll(last, notes, write, plan.labels).value;
    if Unfinished(plan, |notes|, result) then |last| == 1 && os == [Joint(true, last)] else os == last
  }

  /** After `n` rounds the model fails: on the one note left, or on a group of the next round. */
  ghost predicate Breaks(plan: Plan, notes: seq<Note>, write: Writer, n: nat)
    requires Rounds(plan, notes, write, n)
  {
    var result := MadeAll(After(n, Size(plan), |notes|), notes, write, plan.labels).value;
    && Unfinished(plan, |notes|, result)
    && if |result| == 1 then Fails(write, true, result) else RoundFails(result, Size(plan), write)
  }

  lemma RoundsNext(plan: Plan, notes: seq<Note>, write: Writer, n: nat, os: seq<Origin>, result: seq<Note>, next: seq<Note>)
    requires Rounds(plan, notes, write, n) && os == After(n, Size(plan), |notes|)
    requires Accounts(os, result, notes, write, plan.labels) && Unfinished(plan, |notes|, result)
    requires RoundOf(result, Size(plan), write, plan.labels, next)
    ensures Rounds(plan, notes, write, n + 1) && Regrouped(os, Size(plan)) == After(n + 1, Size(plan), |notes|)
    ensures Accounts(Regrouped(os, Size(plan)), next, notes, write, plan.labels)
  {
    hide MadeAll, LeavesAll, Unfinished, RoundOf, Regrouped;
    RoundAccounts(os, result, notes, write, plan.labels, Size(plan), next);
  }

  lemma RoundsStart(plan: Plan, notes: seq<Note>, write: Writer)
    ensures Rounds(plan, notes, write, 0) && After(0, Size(plan), |notes|) == Inputs(|notes|)
    ensures Accounts(Inputs(|notes|), notes, notes, write, plan.labels)
  {
    hide MadeAll, LeavesAll;
    InputsAccount(notes, write, plan.labels);
  }

  lemma AccountsMadeAll(os: seq<Origin>, result: seq<Note>, notes: seq<Note>, write: Writer, labels: Labels)
    requires Accounts(os, result, notes, write, labels)
    ensures MadeAll(os, notes, write, labels) == Some(result)
  {}

  /**
   `_reduce_summaries`: ends for any sizes of notes and any model. Each note is made from inputs by
   calls of the model alone, every input is used once and in order, and nothing is written for no
   notes. There are as many rounds as the notes need, and it fails only on a group of a round it reached.
   */
  method Reduce(notes: seq<Note>, plan: Plan, write: Writer)
    returns (r: Option<seq<Note>>, ghost origins: seq<Origin>, ghost n: nat)
    requires plan.tokens([]) <= plan.budget
    ensures Rounds(plan, notes, write, n)
    ensures r.Some? ==> Accounts(origins, r.value, notes, write, plan.labels) && Ends(plan, notes, write, n, origins)
    ensures r.None? ==> Breaks(plan, notes, write, n)
    ensures r.Some? ==> |r.value| <= Limit(plan) && (|r.value| > 1 ==> plan.tokens(r.value) <= plan.budget)
    ensures r.Some? && plan.labels.forced && notes != [] ==>
      |r.value| == 1 && origins[0].Joint? && r.value[0].title == plan.labels.document
  {
    hide Composed, Regrouped, RoundOf, RoundFails, Accounts, Rounds, After, MadeAll, Size;
    var result := notes;
    var size := Size(plan);
    var single := plan.labels.forced && |result| == 1;
    origins, n := Inputs(|notes|), 0;
    RoundsStart(plan, notes, write);
    assert size >= 2 by { SizeIs(plan); }
    while |result| > Limit(plan) || plan.tokens(result) > plan.budget || single
      invariant Rounds(plan, notes, write, n) && origins == After(n, size, |notes|)
      invariant Accounts(origins, result, notes, write, plan.labels)
      invariant single == (plan.labels.forced && |notes| == 1) && (single ==> |result| == 1)
      invariant (result == [] <==> notes == []) && (n == 0 ==> result == notes) && (n > 0 ==> Merged(origins))
      decreases |result|
    {
      AccountsMadeAll(origins, result, notes, write, plan.labels);
      if |result| == 1 {
        var note := Composed(write, plan.labels, true, result);
        ComposedFails(write, plan.labels, true, result);
        if note.None? { return None, origins, n; }
        AloneAccounts(origins, result, notes, write, plan.labels, note.value);
        AccountsMade(origins, result, notes, write, plan.labels);
        result, origins := [note.value], [Joint(true, origins)];
        AccountsMade(origins, result, notes, write, plan.labels);
        return Some(result), origins, n;
      }
      var reduced := ReduceGroups(result, size, write, plan.labels);
      if reduced.None? { return None, origins, n; }
      RoundsNext(plan, notes, write, n, origins, result, reduced.value);
      RegroupedMerged(origins, size);
      result, origins, n := reduced.value, Regrouped(origins, size), n + 1;
    }
    AccountsMadeAll(origins, result, notes, write, plan.labels);
    AccountsMade(origins, result, notes, write, plan.labels);
    return Some(result), origins, n;
  }

  lemma SizeIs(plan: Plan)
    ensures Size(plan) >= 2
  {}

  predicate Merged(os: seq<Origin>) {
    forall k | 0 <= k < |os| :: os[k].Joint?
  }

  lemma RegroupedMerged(os: seq<Origin>, size: nat)
    requires size > 0
    ensures Merged(Regrouped(os, size))
  {}

  lemma AccountsMade(os: seq<Origin>, result: seq<Note>, inputs: seq<Note>, write: Writer, labels: Labels)
    requires Accounts(os, result, inputs, write, labels)
    ensures |os| == |result|
    ensures forall k | 0 <= k < |os| && os[k].Joint? && labels.forced :: result[k].title == labels.document
  {
    forall k | 0 <= k < |os| ensures Made(os[k], inputs, write, labels) == Some(result[k]) {
      MadeAllAt(os, inputs, write, labels, k);
    }
  }
}
