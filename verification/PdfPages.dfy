/** Expanding placeholders and merging pages (backends/vllm_multimodal/utils/media.py), and why the two agree. */
module PdfPages {
  import opened Wrappers
  import opened Text
  import opened PdfSlots

  // ---------------------------------------------------------------- slots

  function LowerAll(s: string): (r: string)
    ensures |r| == |s|
  {
    if s == "" then "" else [Lower(s[0])] + LowerAll(s[1..])
  }

  /** `_image_slot_types`: the image and PDF entries of a media order, if one is given. */
  function SlotTypes(order: Option<seq<string>>): seq<Slot> {
    if order.None? then [] else Listed(order.value)
  }

  function Listed(items: seq<string>): seq<Slot> {
    if items == [] then [] else
      var first := LowerAll(items[0]);
      (if first == "image" then [ImageSlot] else if first == "pdf" then [PdfSlot] else []) + Listed(items[1..])
  }

  function Slots(slot: Slot, n: nat): (r: seq<Slot>)
    ensures |r| == n && forall k | 0 <= k < n :: r[k] == slot
  {
    seq(n, k => slot)
  }

  /** Without slots in the media order the images come first. */
  function SlotsFor(order: Option<seq<string>>, images: nat, pdfs: nat): seq<Slot> {
    if SlotTypes(order) == [] then Slots(ImageSlot, images) + Slots(PdfSlot, pdfs) else SlotTypes(order)
  }

  /** The same word up to ASCII case; `word` is in lower case. */
  predicate SameWord(s: string, word: string) {
    |s| == |word| && AtNoCase(s, 0, word)
  }

  /** The slot that an entry of a media order stands for, if any. */
  function SlotOf(entry: string): seq<Slot> {
    if SameWord(entry, "image") then [ImageSlot] else if SameWord(entry, "pdf") then [PdfSlot] else []
  }

  lemma {:induction false} LowerIs(s: string, word: string)
    ensures LowerAll(s) == word <==> SameWord(s, word)
  {
    if s != "" && word != "" {
      LowerIs(s[1..], word[1..]);
      assert LowerAll(s) == [Lower(s[0])] + LowerAll(s[1..]) && word == [word[0]] + word[1..];
      if SameWord(s, word) {
        forall k | 0 <= k < |word| - 1 ensures Lower(s[1..][0 + k]) == word[1..][k] { assert Lower(s[0 + (k + 1)]) == word[k + 1]; }
      }
      if Lower(s[0]) == word[0] && SameWord(s[1..], word[1..]) {
        forall k | 0 <= k < |word| ensures Lower(s[0 + k]) == word[k] {
          if k > 0 { assert Lower(s[1..][0 + (k - 1)]) == word[1..][k - 1]; }
        }
      }
    }
  }

  /** The slots are those of the entries, in order. */
  lemma {:induction false} ListedInOrder(items: seq<string>, entry: string)
    ensures Listed(items + [entry]) == Listed(items) + SlotOf(entry)
  {
    if items == [] {
      LowerIs(entry, "image");
      LowerIs(entry, "pdf");
      assert [entry][1..] == [];
      hide LowerAll, SameWord;
    } else {
      assert (items + [entry])[1..] == items[1..] + [entry];
      ListedInOrder(items[1..], entry);
      hide LowerAll, SlotOf;
    }
  }

  /** A media order with an image or a PDF in it is followed; otherwise all images come before all PDFs. */
  lemma SlotsFollow(order: Option<seq<string>>, images: nat, pdfs: nat)
    ensures var r := SlotsFor(order, images, pdfs);
      if order.Some? && (exists e | e in order.value :: SlotOf(e) != []) then r == Listed(order.value)
      else |r| == images + pdfs && forall k | 0 <= k < |r| :: r[k] == if k < images then ImageSlot else PdfSlot
  {
    if order.Some? { ListedSome(order.value); }
    hide Listed, SlotOf;
  }

  lemma {:induction false} ListedSome(items: seq<string>)
    ensures Listed(items) != [] <==> exists e | e in items :: SlotOf(e) != []
    decreases |items|
  {
    if items != [] {
      var n := |items| - 1;
      assert items == items[..n] + [items[n]];
      ListedInOrder(items[..n], items[n]);
      ListedSome(items[..n]);
      hide Listed, SlotOf;
      if Listed(items) != [] && SlotOf(items[n]) == [] {
        var e :| e in items[..n] && SlotOf(e) != [];
        assert e in items;
      }
      if exists e | e in items :: SlotOf(e) != [] {
        var e :| e in items && SlotOf(e) != [];
        assert e in items[..n] || e == items[n];
      }
    }
  }

  function Pdfs(slots: seq<Slot>): nat {
    if slots == [] then 0 else (if slots[0].PdfSlot? then 1 else 0) + Pdfs(slots[1..])
  }

  /** How many images each slot stands for. */
  function Sizes(slots: seq<Slot>, counts: seq<nat>): (r: seq<nat>)
    requires Pdfs(slots) <= |counts|
    ensures |r| == |slots|
  {
    if slots == [] then []
    else if slots[0].ImageSlot? then [1] + Sizes(slots[1..], counts)
    else [counts[0]] + Sizes(slots[1..], counts[1..])
  }

  function Sum(counts: seq<nat>): nat {
    if counts == [] then 0 else counts[0] + Sum(counts[1..])
  }

  // ---------------------------------------------------------------- expanding

  method FindMarkers(prompt: string, m: string) returns (starts: seq<nat>)
    requires m != ""
    ensures starts == Starts(prompt, m, 0)
  {
    hide At;
    starts := [];
    var i := 0;
    ghost var all := Starts(prompt, m, 0);
    while i + |m| <= |prompt|
      invariant all == starts + Starts(prompt, m, i)
      decreases |prompt| - i
    {
      if At(prompt, i, m) {
        assert starts + ([i] + Starts(prompt, m, i + |m|)) == starts + [i] + Starts(prompt, m, i + |m|);
        starts := starts + [i];
        i := i + |m|;
      } else {
        i := i + 1;
      }
    }
    assert starts + [] == starts;
  }

  /** The counts behind each marker of the prompt: those of the slots, and one for each further marker. */
  function Copies(sizes: seq<nat>, markers: nat): (r: seq<nat>)
    requires |sizes| <= markers
    ensures |r| == markers
  {
    sizes + Ones(markers - |sizes|)
  }

  function PdfsBefore(slots: seq<Slot>, k: nat): nat
    requires k <= |slots|
  {
    if k == 0 then 0 else PdfsBefore(slots, k - 1) + if slots[k - 1].PdfSlot? then 1 else 0
  }

  lemma {:induction false} PdfsSplit(slots: seq<Slot>, k: nat)
    requires k <= |slots|
    ensures PdfsBefore(slots, k) + Pdfs(slots[k..]) == Pdfs(slots)
  {
    if k == 0 {
      assert slots[0..] == slots;
    } else {
      PdfsSplit(slots, k - 1);
      assert slots[k - 1..][1..] == slots[k..];
    }
  }

  lemma {:induction false} SizeIs(slots: seq<Slot>, counts: seq<nat>, k: nat)
    requires Pdfs(slots) <= |counts| && k < |slots|
    ensures slots[k].PdfSlot? ==> PdfsBefore(slots, k) < |counts|
    ensures Sizes(slots, counts)[k] == if slots[k].ImageSlot? then 1 else counts[PdfsBefore(slots, k)]
  {
    if k > 0 {
      var pdf := slots[0].PdfSlot?;
      SizeIs(slots[1..], if pdf then counts[1..] else counts, k - 1);
      PdfsBeforeRest(slots, k);
    }
  }

  lemma {:induction false} PdfsBeforeRest(slots: seq<Slot>, k: nat)
    requires 0 < k <= |slots|
    ensures PdfsBefore(slots, k) == (if slots[0].PdfSlot? then 1 else 0) + PdfsBefore(slots[1..], k - 1)
    decreases k
  {
    if k > 1 { PdfsBeforeRest(slots, k - 1); }
  }

  /** The replacements of the first `n` slots, by where their markers start. */
  ghost predicate Replaces(replacements: map<nat, string>, starts: seq<nat>, slots: seq<Slot>, sizes: seq<nat>, m: string, n: nat)
    requires n <= |slots| == |sizes| <= |starts|
  {
    forall k | 0 <= k < |starts| ::
      if k < n && slots[k].PdfSlot? then starts[k] in replacements && replacements[starts[k]] == Repeat(m, sizes[k])
      else starts[k] !in replacements
  }

  /** The loop that prepares the replacements. */
  method Prepare(starts: seq<nat>, slots: seq<Slot>, counts: seq<nat>, m: string) returns (r: Result<map<nat, string>>)
    requires Pdfs(slots) == |counts| && |slots| <= |starts| && forall j, k | 0 <= j < k < |starts| :: starts[j] < starts[k]
    ensures r.Ok? <==> Positive(counts)
    ensures r.Ok? ==> Replaces(r.value, starts, slots, Sizes(slots, counts), m, |slots|)
  {
    var replacements: map<nat, string> := map[];
    var pdf := 0;
    for i := 0 to |slots|
      invariant pdf == PdfsBefore(slots, i) <= |counts|
      invariant forall k | 0 <= k < pdf :: counts[k] > 0
      invariant Replaces(replacements, starts, slots, Sizes(slots, counts), m, i)
    {
      SizeIs(slots, counts, i);
      PdfsSplit(slots, i + 1);
      if slots[i].PdfSlot? {
        var pages := counts[pdf];
        if pages == 0 { return Fail; }
        replacements := replacements[starts[i] := Repeat(m, pages)];
        pdf := pdf + 1;
      }
    }
    PdfsSplit(slots, |slots|);
    return Ok(replacements);
  }

  /** The text that the loop over the matches has put together, with what is still to come. */
  lemma CopyOne(prompt: string, m: string, k: nat, cursor: nat, copies: seq<nat>, done: string)
    requires m != "" && k < |Starts(prompt, m, 0)| == |copies|
    requires cursor <= Behind(Starts(prompt, m, 0), k, m, 0) <= |prompt|
    ensures var st, ps := Starts(prompt, m, 0), Pieces(prompt, m, 0, 0);
      var b := Behind(st, k, m, 0);
      && b <= st[k] && st[k] + |m| <= |prompt|
      && done + prompt[cursor..b] + Join(ps[k..], copies[k..], m)
         == done + prompt[cursor..st[k]] + Repeat(m, copies[k]) + Join(ps[k + 1..], copies[k + 1..], m)
      && (copies[k] == 1 ==> prompt[cursor..st[k]] + Repeat(m, copies[k]) == prompt[cursor..st[k] + |m|])
  {
    hide Starts, Pieces, Behind;
    var st, ps := Starts(prompt, m, 0), Pieces(prompt, m, 0, 0);
    PieceIs(prompt, m, 0, 0, k);
    var b := Behind(st, k, m, 0);
    assert ps[k..][1..] == ps[k + 1..] && copies[k..][1..] == copies[k + 1..];
    assert prompt[cursor..b] + prompt[b..st[k]] == prompt[cursor..st[k]];
    Assoc(done, prompt[cursor..b], ps[k], Repeat(m, copies[k]), Join(ps[k + 1..], copies[k + 1..], m));
    if copies[k] == 1 {
      assert Repeat(m, 1) == m + "" == m;
      assert prompt[st[k]..st[k] + |m|] == m;
    }
  }

  lemma Assoc(a: string, b: string, c: string, d: string, e: string)
    ensures a + b + (c + (d + e)) == a + (b + c) + d + e
  {}

  /** `done`, the text from `cursor` to the `k`-th match, and the rest make up the expanded prompt. */
  ghost predicate Copied(prompt: string, m: string, copies: seq<nat>, k: nat, cursor: nat, done: string)
    requires m != "" && k <= |Starts(prompt, m, 0)| == |copies|
  {
    var st, ps := Starts(prompt, m, 0), Pieces(prompt, m, 0, 0);
    var b := Behind(st, k, m, 0);
    cursor <= b <= |prompt| && Join(ps, copies, m) == done + prompt[cursor..b] + Join(ps[k..], copies[k..], m)
  }

  lemma CopyStart(prompt: string, m: string, copies: seq<nat>)
    requires m != "" && |Starts(prompt, m, 0)| == |copies|
    ensures Copied(prompt, m, copies, 0, 0, "")
  {
    hide Starts, Pieces, Join;
    var ps := Pieces(prompt, m, 0, 0);
    assert copies[0..] == copies && ps[0..] == ps;
    assert "" + prompt[0..0] + Join(ps, copies, m) == Join(ps, copies, m);
  }

  lemma CopyReplaced(prompt: string, m: string, copies: seq<nat>, k: nat, cursor: nat, done: string)
    requires m != "" && k < |Starts(prompt, m, 0)| == |copies| && Copied(prompt, m, copies, k, cursor, done)
    ensures var at := Starts(prompt, m, 0)[k];
      && cursor <= at && at + |m| <= |prompt|
      && Copied(prompt, m, copies, k + 1, at + |m|, done + prompt[cursor..at] + Repeat(m, copies[k]))
  {
    hide Starts, Pieces, Join, Repeat;
    CopyOne(prompt, m, k, cursor, copies, done);
    var at := Starts(prompt, m, 0)[k];
    var now := done + prompt[cursor..at] + Repeat(m, copies[k]);
    assert prompt[at + |m|..at + |m|] == "" && now + "" == now;
  }

  lemma CopyKept(prompt: string, m: string, copies: seq<nat>, k: nat, cursor: nat, done: string)
    requires m != "" && k < |Starts(prompt, m, 0)| == |copies| && Copied(prompt, m, copies, k, cursor, done) && copies[k] == 1
    ensures Copied(prompt, m, copies, k + 1, cursor, done)
  {
    hide Starts, Pieces, Join, Repeat;
    CopyOne(prompt, m, k, cursor, copies, done);
    var at := Starts(prompt, m, 0)[k];
    assert done + prompt[cursor..at] + Repeat(m, 1) == done + (prompt[cursor..at] + Repeat(m, 1));
  }

  /** The loop over the matches that replaces those of PDFs. */
  method Replace(prompt: string, m: string, starts: seq<nat>, replacements: map<nat, string>, ghost slots: seq<Slot>, ghost counts: seq<nat>)
    returns (r: string)
    requires m != "" && starts == Starts(prompt, m, 0) && Pdfs(slots) <= |counts| && |slots| <= |starts|
    requires Replaces(replacements, starts, slots, Sizes(slots, counts), m, |slots|)
    ensures r == Join(Pieces(prompt, m, 0, 0), Copies(Sizes(slots, counts), |starts|), m)
  {
    ghost var copies := Copies(Sizes(slots, counts), |starts|);
    r := "";
    var cursor: nat := 0;
    CopyStart(prompt, m, copies);
    hide Starts, Repeat, Sizes, Copied, Join, Pieces;
    for k := 0 to |starts|
      invariant Copied(prompt, m, copies, k, cursor, r)
    {
      CopyCount(slots, counts, |starts|, k);
      CopyReplaced(prompt, m, copies, k, cursor, r);
      if starts[k] in replacements {
        r := r + prompt[cursor..starts[k]] + replacements[starts[k]];
        cursor := starts[k] + |m|;
      } else {
        CopyKept(prompt, m, copies, k, cursor, r);
      }
    }
    CopyEnd(prompt, m, copies, cursor, r);
    r := r + prompt[cursor..];
  }

  lemma CopyEnd(prompt: string, m: string, copies: seq<nat>, cursor: nat, done: string)
    requires m != "" && |Starts(prompt, m, 0)| == |copies| && Copied(prompt, m, copies, |copies|, cursor, done)
    ensures cursor <= |prompt| && Join(Pieces(prompt, m, 0, 0), copies, m) == done + prompt[cursor..]
  {
    LastPiece(prompt, m, cursor, copies, done);
  }

  lemma LastPiece(prompt: string, m: string, cursor: nat, copies: seq<nat>, done: string)
    requires m != "" && |copies| == |Starts(prompt, m, 0)|
    requires cursor <= Behind(Starts(prompt, m, 0), |copies|, m, 0) <= |prompt|
    ensures var st, ps := Starts(prompt, m, 0), Pieces(prompt, m, 0, 0);
      var b := Behind(st, |copies|, m, 0);
      done + prompt[cursor..b] + Join(ps[|copies|..], copies[|copies|..], m) == done + prompt[cursor..]
  {
    hide Starts, Pieces, Behind;
    var st, ps := Starts(prompt, m, 0), Pieces(prompt, m, 0, 0);
    var b := Behind(st, |copies|, m, 0);
    PieceIs(prompt, m, 0, 0, |copies|);
    assert prompt[cursor..b] + prompt[b..] == prompt[cursor..];
  }

  lemma CopyCount(slots: seq<Slot>, counts: seq<nat>, markers: nat, k: nat)
    requires Pdfs(slots) <= |counts| && |slots| <= markers && k < markers
    ensures Copies(Sizes(slots, counts), markers)[k] ==
      if k < |slots| && slots[k].PdfSlot? then Sizes(slots, counts)[k] else 1
  {
    if k < |slots| { SizeIs(slots, counts, k); }
  }

  /** The first known marker from the `k`-th on that the prompt holds, by its place in the list. */
  function FirstMarker(prompt: string, k: nat): (r: Option<nat>)
    requires k <= |MARKERS|
    ensures r.Some? ==> k <= r.value < |MARKERS| && !Free(prompt, MARKERS[r.value])
    ensures forall j | k <= j < (if r.Some? then r.value else |MARKERS|) :: Free(prompt, MARKERS[j])
    decreases |MARKERS| - k
  {
    if k == |MARKERS| then None else if !Free(prompt, MARKERS[k]) then Some(k) else FirstMarker(prompt, k + 1)
  }

  function Marker(prompt: string): (m: string)
    requires FirstMarker(prompt, 0).Some?
    ensures m in MARKERS && m != ""
  {
    MARKERS[FirstMarker(prompt, 0).value]
  }

  /** `_detect_image_marker`: of the known markers that the prompt holds, the one listed first. */
  method DetectMarker(prompt: string) returns (m: Option<string>)
    ensures m.Some? <==> FirstMarker(prompt, 0).Some?
    ensures m.Some? ==> m.value == Marker(prompt)
  {
    hide Free;
    for k := 0 to |MARKERS|
      invariant FirstMarker(prompt, 0) == FirstMarker(prompt, k)
    {
      var starts := FindMarkers(prompt, MARKERS[k]);
      HeldOrFree(prompt, MARKERS[k]);
      if starts != [] { return Some(MARKERS[k]); }
    }
    return None;
  }

  lemma HeldOrFree(s: string, m: string)
    requires m != ""
    ensures Starts(s, m, 0) == [] <==> Free(s, m)
  {
    NoStartsIsFree(s, m, 0);
  }

  lemma {:induction false} NoStartsIsFree(s: string, m: string, i: nat)
    requires m != ""
    ensures Starts(s, m, i) == [] <==> forall k | i <= k :: !At(s, k, m)
    decreases |s| - i
  {
    if i + |m| <= |s| && !At(s, i, m) { NoStartsIsFree(s, m, i + 1); }
  }

  /** `expand_pdf_placeholders` for a prompt with the marker `m`. */
  method Expand(prompt: string, m: string, slots: seq<Slot>, counts: seq<nat>) returns (r: Result<string>)
    requires m != ""
    ensures r.Ok? <==> Pdfs(slots) == |counts| && |slots| <= |Starts(prompt, m, 0)| && Positive(counts)
    ensures r.Ok? ==>
      r.value == Join(Pieces(prompt, m, 0, 0), Copies(Sizes(slots, counts), |Starts(prompt, m, 0)|), m)
  {
    var pdfs := CountPdfs(slots);
    if pdfs != |counts| { return Fail; }
    var starts := FindMarkers(prompt, m);
    if |starts| < |slots| { return Fail; }
    forall j, k | 0 <= j < k < |starts| ensures starts[j] < starts[k] { StartsGrow(prompt, m, 0, j, k); }
    var replacements := Prepare(starts, slots, counts, m);
    if replacements.Fail? { return Fail; }
    var text := Replace(prompt, m, starts, replacements.value, slots, counts);
    return Ok(text);
  }

  /** `list.count`. */
  method CountPdfs(slots: seq<Slot>) returns (n: nat)
    ensures n == Pdfs(slots)
  {
    n := 0;
    for i := 0 to |slots|
      invariant n == PdfsBefore(slots, i)
    {
      if slots[i].PdfSlot? { n := n + 1; }
    }
    PdfsSplit(slots, |slots|);
  }

  // ---------------------------------------------------------------- merging

  /** The images in slot order: one image, or the pages of one PDF, per slot. */
  function Merged<T>(slots: seq<Slot>, images: seq<T>, pages: seq<T>, counts: seq<nat>): Option<seq<T>> {
    if slots == [] then if images == [] && counts == [] then Some([]) else None
    else if slots[0].ImageSlot? then
      if images == [] then None else InFront([images[0]], Merged(slots[1..], images[1..], pages, counts))
    else if counts == [] then None
    else
      var n := if counts[0] <= |pages| then counts[0] else |pages|;
      InFront(pages[..n], Merged(slots[1..], images, pages[n..], counts[1..]))
  }

  function InFront<T>(front: seq<T>, rest: Option<seq<T>>): Option<seq<T>> {
    if rest.None? then None else Some(front + rest.value)
  }

  lemma InFrontTwice<T>(a: seq<T>, b: seq<T>, rest: Option<seq<T>>)
    ensures InFront(a, InFront(b, rest)) == InFront(a + b, rest) && InFront([], rest) == rest
  {
    if rest.Some? { assert a + (b + rest.value) == a + b + rest.value && [] + rest.value == rest.value; }
  }

  /** `_merge_image_modalities` for given slots. */
  method Merge<T>(slots: seq<Slot>, images: seq<T>, pages: seq<T>, counts: seq<nat>) returns (r: Option<seq<T>>)
    ensures r == Merged(slots, images, pages, counts)
  {
    var merged, image, page, pdf := [], 0, 0, 0;
    ghost var whole := Merged(slots, images, pages, counts);
    assert slots[0..] == slots && images[0..] == images && pages[0..] == pages && counts[0..] == counts;
    InFrontTwice([], [], whole);
    hide InFront;
    for i := 0 to |slots|
      invariant image <= |images| && page <= |pages| && pdf <= |counts|
      invariant whole == InFront(merged, Merged(slots[i..], images[image..], pages[page..], counts[pdf..]))
    {
      MergeNone<T>(merged);
      assert slots[i..][1..] == slots[i + 1..];
      if slots[i].ImageSlot? {
        if image >= |images| { return None; }
        assert images[image..][1..] == images[image + 1..];
        InFrontTwice(merged, [images[image]], Merged(slots[i + 1..], images[image + 1..], pages[page..], counts[pdf..]));
        merged := merged + [images[image]];
        image := image + 1;
      } else {
        if pdf >= |counts| { return None; }
        var end := if page + counts[pdf] <= |pages| then page + counts[pdf] else |pages|;
        assert pages[page..][..end - page] == pages[page..end] && pages[page..][end - page..] == pages[end..];
        assert counts[pdf..][1..] == counts[pdf + 1..];
        InFrontTwice(merged, pages[page..end], Merged(slots[i + 1..], images[image..], pages[end..], counts[pdf + 1..]));
        merged := merged + pages[page..end];
        page, pdf := end, pdf + 1;
      }
    }
    MergeNone<T>(merged);
    MergeEnd(merged);
    return if image != |images| || pdf != |counts| then None else Some(merged);
  }

  lemma MergeNone<T>(merged: seq<T>)
    ensures InFront(merged, None) == None
  {}

  lemma MergeEnd<T>(merged: seq<T>)
    ensures InFront(merged, Some([])) == Some(merged)
  {
    assert merged + [] == merged;
  }

  // ---------------------------------------------------------------- alignment

  function ImagesBefore(slots: seq<Slot>, k: nat): nat
    requires k <= |slots|
  {
    if k == 0 then 0 else ImagesBefore(slots, k - 1) + if slots[k - 1].ImageSlot? then 1 else 0
  }

  lemma {:induction false} ImagesBeforeRest(slots: seq<Slot>, k: nat)
    requires 0 < k <= |slots|
    ensures ImagesBefore(slots, k) == (if slots[0].ImageSlot? then 1 else 0) + ImagesBefore(slots[1..], k - 1)
    decreases k
  {
    if k > 1 { ImagesBeforeRest(slots, k - 1); }
  }

  /** What slot `j` stands for among the images: one of them, or the pages of one PDF. */
  function Block<T>(slots: seq<Slot>, images: seq<T>, pages: seq<T>, counts: seq<nat>, j: nat): seq<T>
    requires j < |slots|
  {
    if slots[j].ImageSlot? then
      if ImagesBefore(slots, j) < |images| then [images[ImagesBefore(slots, j)]] else []
    else PagesOf(pages, counts, PdfsBefore(slots, j))
  }

  lemma {:induction false} SumSplit(counts: seq<nat>, n: nat)
    requires n <= |counts|
    ensures Sum(counts[..n]) + Sum(counts[n..]) == Sum(counts)
  {
    if n == 0 {
      assert counts[..0] == [] && counts[0..] == counts;
    } else {
      SumSplit(counts[1..], n - 1);
      assert counts[..n][1..] == counts[1..][..n - 1] && counts[1..][n - 1..] == counts[n..];
    }
  }

  /** Where the images of slot `j` start among all. */
  function Offset(sizes: seq<nat>, j: nat): nat
    requires j <= |sizes|
  {
    Sum(sizes[..j])
  }

  lemma OffsetNext(sizes: seq<nat>, j: nat)
    requires 0 < j <= |sizes|
    ensures Offset(sizes, j) == sizes[0] + Offset(sizes[1..], j - 1)
  {
    assert sizes[..j][1..] == sizes[1..][..j - 1];
  }

  /** From the slot's offset on, `all` holds what the slot stands for. */
  predicate HoldsBlock<T(==)>(all: seq<T>, sizes: seq<nat>, j: nat, block: seq<T>)
    requires j < |sizes|
  {
    && |block| == sizes[j] && Offset(sizes, j) + sizes[j] <= |all|
    && all[Offset(sizes, j)..Offset(sizes, j) + sizes[j]] == block
  }

  lemma HoldsBehind<T>(front: seq<T>, all: seq<T>, n: nat, sizes: seq<nat>, j: nat, block: seq<T>)
    requires j < |sizes| && |front| == n && HoldsBlock(all, sizes, j, block)
    ensures HoldsBlock(front + all, [n] + sizes, j + 1, block)
  {
    assert ([n] + sizes)[1..] == sizes;
    OffsetNext([n] + sizes, j + 1);
    hide Offset;
    ShiftSlice(front, all, Offset(sizes, j), sizes[j]);
  }

  lemma HoldsFirst<T>(front: seq<T>, all: seq<T>, n: nat, sizes: seq<nat>)
    requires |front| == n
    ensures HoldsBlock(front + all, [n] + sizes, 0, front)
  {
    assert ([n] + sizes)[..0] == [];
    assert (front + all)[0..n] == front;
  }

  /** The merged images hold, from the slot's offset on, what the slot stands for. */
  lemma {:induction false} MergedBlock<T>(slots: seq<Slot>, images: seq<T>, pages: seq<T>, counts: seq<nat>, j: nat)
    requires Merged(slots, images, pages, counts).Some? && Sum(counts) == |pages| && j < |slots|
    ensures Pdfs(slots) == |counts|
    ensures HoldsBlock(Merged(slots, images, pages, counts).value, Sizes(slots, counts), j, Block(slots, images, pages, counts, j))
  {
    MergedSizes(slots, images, pages, counts);
    if slots[0].ImageSlot? {
      var rest := Merged(slots[1..], images[1..], pages, counts).value;
      if j == 0 {
        HoldsFirst([images[0]], rest, 1, Sizes(slots[1..], counts));
      } else {
        hide HoldsBlock, Block;
        MergedBlock(slots[1..], images[1..], pages, counts, j - 1);
        BlockBehindImage(slots, images, pages, counts, j);
        HoldsBehind([images[0]], rest, 1, Sizes(slots[1..], counts), j - 1, Block(slots, images, pages, counts, j));
      }
    } else {
      var rest := Merged(slots[1..], images, pages[counts[0]..], counts[1..]).value;
      if j == 0 {
        assert counts[..0] == [];
        HoldsFirst(pages[..counts[0]], rest, counts[0], Sizes(slots[1..], counts[1..]));
      } else {
        hide HoldsBlock, Block;
        MergedBlock(slots[1..], images, pages[counts[0]..], counts[1..], j - 1);
        BlockBehindPdf(slots, images, pages, counts, j);
        HoldsBehind(pages[..counts[0]], rest, counts[0], Sizes(slots[1..], counts[1..]), j - 1, Block(slots, images, pages, counts, j));
      }
    }
  }

  lemma ShiftSlice<T>(front: seq<T>, rest: seq<T>, from: nat, n: nat)
    requires from + n <= |rest|
    ensures (front + rest)[|front| + from..|front| + from + n] == rest[from..from + n]
  {}

  lemma {:induction false} MergedSizes<T>(slots: seq<Slot>, images: seq<T>, pages: seq<T>, counts: seq<nat>)
    requires Merged(slots, images, pages, counts).Some? && Sum(counts) == |pages|
    ensures Pdfs(slots) == |counts| && |Merged(slots, images, pages, counts).value| == Sum(Sizes(slots, counts))
  {
    if slots != [] {
      if slots[0].ImageSlot? {
        MergedSizes(slots[1..], images[1..], pages, counts);
      } else {
        MergedSizes(slots[1..], images, pages[counts[0]..], counts[1..]);
      }
    }
  }

  function Images(slots: seq<Slot>): nat {
    if slots == [] then 0 else (if slots[0].ImageSlot? then 1 else 0) + Images(slots[1..])
  }

  /** Merging fails exactly when the slots do not match the inputs. */
  lemma {:induction false} MergedExactly<T>(slots: seq<Slot>, images: seq<T>, pages: seq<T>, counts: seq<nat>)
    ensures Merged(slots, images, pages, counts).Some? <==> Pdfs(slots) == |counts| && Images(slots) == |images|
  {
    if slots != [] {
      if slots[0].ImageSlot? {
        if images != [] { MergedExactly(slots[1..], images[1..], pages, counts); }
      } else if counts != [] {
        MergedExactly(slots[1..], images, pages[if counts[0] <= |pages| then counts[0] else |pages|..], counts[1..]);
      }
    }
  }

  lemma BlockBehindImage<T>(slots: seq<Slot>, images: seq<T>, pages: seq<T>, counts: seq<nat>, j: nat)
    requires 0 < j < |slots| && slots[0].ImageSlot? && images != []
    ensures Block(slots, images, pages, counts, j) == Block(slots[1..], images[1..], pages, counts, j - 1)
  {
    ImagesBeforeRest(slots, j);
    PdfsBeforeRest(slots, j);
  }

  /** The pages of PDF `p`. */
  function PagesOf<T>(pages: seq<T>, counts: seq<nat>, p: nat): seq<T> {
    if p < |counts| && Sum(counts[..p]) + counts[p] <= |pages| then pages[Sum(counts[..p])..Sum(counts[..p]) + counts[p]] else []
  }

  lemma PagesBehind<T>(pages: seq<T>, counts: seq<nat>, p: nat)
    requires p > 0 && counts != [] && counts[0] <= |pages|
    ensures PagesOf(pages, counts, p) == PagesOf(pages[counts[0]..], counts[1..], p - 1)
  {
    if p < |counts| {
      assert counts[..p][1..] == counts[1..][..p - 1];
      assert Sum(counts[..p]) == counts[0] + Sum(counts[1..][..p - 1]);
      hide Sum;
      var from := Sum(counts[1..][..p - 1]);
      if from + counts[p] <= |pages| - counts[0] {
        assert pages[counts[0]..][from..from + counts[p]] == pages[counts[0] + from..counts[0] + from + counts[p]];
      }
    }
  }

  lemma BlockBehindPdf<T>(slots: seq<Slot>, images: seq<T>, pages: seq<T>, counts: seq<nat>, j: nat)
    requires 0 < j < |slots| && slots[0].PdfSlot? && counts != [] && counts[0] <= |pages|
    ensures Block(slots, images, pages, counts, j) == Block(slots[1..], images, pages[counts[0]..], counts[1..], j - 1)
  {
    hide *;
    ImagesBeforeRest(slots, j);
    PdfsBeforeRest(slots, j);
    BlockIs(slots, images, pages, counts, j);
    BlockIs(slots[1..], images, pages[counts[0]..], counts[1..], j - 1);
    if slots[j].PdfSlot? { PagesBehind(pages, counts, PdfsBefore(slots, j)); }
  }

  lemma BlockIs<T>(slots: seq<Slot>, images: seq<T>, pages: seq<T>, counts: seq<nat>, j: nat)
    requires j < |slots|
    ensures slots[j].PdfSlot? ==> Block(slots, images, pages, counts, j) == PagesOf(pages, counts, PdfsBefore(slots, j))
    ensures slots[j].ImageSlot? ==>
      Block(slots, images, pages, counts, j) ==
        if ImagesBefore(slots, j) < |images| then [images[ImagesBefore(slots, j)]] else []
  {}

  /** The markers of the expanded prompt stand, from the slot's offset on, where the slot's marker stood, one behind the other. */
  lemma {:induction false} MarkerBlock(pieces: seq<string>, copies: seq<nat>, m: string, at: nat, j: nat)
    requires |pieces| == |copies| + 1 && j < |copies|
    ensures HoldsBlock(JoinStarts(pieces, copies, m, at), copies, j, RepeatStarts(m, copies[j], at + |JoinedTo(pieces, copies, m, j)|))
    decreases j
  {
    hide RepeatStarts, Repeat;
    var first := at + |pieces[0]|;
    var front, rest := RepeatStarts(m, copies[0], first), JoinStarts(pieces[1..], copies[1..], m, first + |Repeat(m, copies[0])|);
    assert copies == [copies[0]] + copies[1..];
    if j == 0 {
      HoldsFirst(front, rest, copies[0], copies[1..]);
    } else {
      hide HoldsBlock;
      MarkerBlock(pieces[1..], copies[1..], m, first + |Repeat(m, copies[0])|, j - 1);
      HoldsBehind(front, rest, copies[0], copies[1..], j - 1, RepeatStarts(m, copies[j], at + |JoinedTo(pieces, copies, m, j)|));
    }
  }

  /** The expanded prompt up to the markers of slot `j`. */
  function JoinedTo(pieces: seq<string>, copies: seq<nat>, m: string, j: nat): string
    requires |pieces| == |copies| + 1 && j < |copies|
  {
    if j == 0 then pieces[0] else pieces[0] + (Repeat(m, copies[0]) + JoinedTo(pieces[1..], copies[1..], m, j - 1))
  }

  lemma {:induction false} JoinCount(pieces: seq<string>, copies: seq<nat>, m: string, at: nat)
    requires |pieces| == |copies| + 1
    ensures |JoinStarts(pieces, copies, m, at)| == Sum(copies)
  {
    if copies != [] { JoinCount(pieces[1..], copies[1..], m, at + |pieces[0]| + |Repeat(m, copies[0])|); }
  }

  // ---------------------------------------------------------------- known markers

  /** Where a marker could start once more within itself. */
  lemma OpeningsOfFirst(d: nat)
    requires 0 < d < |MARKERS[0]| && MARKERS[0][d] == '<'
    ensures d == 16 || d == 29
  {}

  lemma NoOpening(k: nat, d: nat)
    requires 1 <= k < 4 && 0 < d < |MARKERS[k]|
    ensures MARKERS[k][d] != '<'
  {}

  /** A border repeats the beginning of the marker `d` characters later. */
  predicate Border(m: string, d: nat)
    requires 0 < d < |m|
  {
    forall k | 0 <= k < |m| - d :: m[d + k] == m[k]
  }

  lemma NoBorder(i: nat, d: nat)
    requires i < 4 && 0 < d < |MARKERS[i]|
    ensures !Border(MARKERS[i], d)
  {
    var m := MARKERS[i];
    assert m[0] == '<';
    if i > 0 {
      NoOpening(i, d);
      assert m[d + 0] != m[0];
    } else if m[d] == '<' {
      OpeningsOfFirst(d);
      assert if d == 16 then m[16 + 2] != m[2] else m[29 + 9] != m[9];
    } else {
      assert m[d + 0] != m[0];
    }
  }

  lemma SliceBorder(m: string, d: nat)
    requires 0 < d < |m| && m[d..] == m[..|m| - d]
    ensures Border(m, d)
  {
    forall k | 0 <= k < |m| - d ensures m[d + k] == m[k] {
      assert m[d..][k] == m[..|m| - d][k];
    }
  }

  /** No known marker ends the way it begins. */
  lemma MarkersAreUnbordered(m: string)
    requires m in MARKERS
    ensures Unbordered(m)
  {
    hide Border;
    var i :| 0 <= i < 4 && MARKERS[i] == m;
    forall d | 0 < d < |m| ensures m[d..] != m[..|m| - d] {
      NoBorder(i, d);
      if m[d..] == m[..|m| - d] { SliceBorder(m, d); }
    }
  }

  // ---------------------------------------------------------------- the whole prompt

  /** What a request for PDFs becomes: its prompt, its images, and where each image came from. */
  datatype Built<T> = Built(prompt: string, images: seq<T>, origins: seq<string>)

  lemma {:induction false} SumOnes(n: nat)
    ensures Sum(Ones(n)) == n
  {
    if n > 0 {
      assert Ones(n)[1..] == Ones(n - 1);
      SumOnes(n - 1);
    }
  }

  lemma {:induction false} SumAppend(a: seq<nat>, b: seq<nat>)
    ensures Sum(a + b) == Sum(a) + Sum(b)
  {
    if a == [] {
      assert a + b == b;
    } else {
      assert (a + b)[1..] == a[1..] + b;
      SumAppend(a[1..], b);
    }
  }

  /** All sizes together: one per image slot, the pages per PDF slot. */
  lemma {:induction false} SumSizes(slots: seq<Slot>, counts: seq<nat>)
    requires Pdfs(slots) == |counts|
    ensures Sum(Sizes(slots, counts)) + |counts| == |slots| + Sum(counts)
  {
    if slots != [] {
      SumSizes(slots[1..], if slots[0].PdfSlot? then counts[1..] else counts);
    } else {
      assert counts == [];
    }
  }

  lemma SizesPositive(slots: seq<Slot>, counts: seq<nat>, markers: nat)
    requires Pdfs(slots) <= |counts| && |slots| <= markers && Positive(counts)
    ensures Positive(Copies(Sizes(slots, counts), markers))
  {
    forall k | 0 <= k < markers ensures Copies(Sizes(slots, counts), markers)[k] > 0 {
      CopyCount(slots, counts, markers, k);
      if k < |slots| { SizeIs(slots, counts, k); }
    }
  }

  lemma OffsetPrefix(sizes: seq<nat>, more: seq<nat>, j: nat)
    requires j < |sizes|
    ensures Offset(sizes + more, j) == Offset(sizes, j)
  {
    assert (sizes + more)[..j] == sizes[..j];
  }

  /** The markers of an expanded prompt are those of its joined form. */
  lemma ExpandedStarts(prompt: string, m: string, slots: seq<Slot>, counts: seq<nat>, text: string)
    requires m in MARKERS && Unbordered(m) && Pdfs(slots) == |counts| && |slots| <= |Starts(prompt, m, 0)| && Positive(counts)
    requires text == Join(Pieces(prompt, m, 0, 0), Copies(Sizes(slots, counts), |Starts(prompt, m, 0)|), m)
    ensures Starts(text, m, 0)
         == JoinStarts(Pieces(prompt, m, 0, 0), Copies(Sizes(slots, counts), |Starts(prompt, m, 0)|), m, 0)
  {
    hide Starts, Pieces, Join, JoinStarts, Sizes, Unbordered, Copies, Free;
    CutAndJoin(prompt, m, 0, 0);
    SizesPositive(slots, counts, |Starts(prompt, m, 0)|);
    assert text[0..] == text;
    StartsOfJoin(text, 0, Pieces(prompt, m, 0, 0), Copies(Sizes(slots, counts), |Starts(prompt, m, 0)|), m);
  }

  lemma CopiesSum(slots: seq<Slot>, counts: seq<nat>, markers: nat)
    requires Pdfs(slots) == |counts| && |slots| <= markers
    ensures Sum(Copies(Sizes(slots, counts), markers)) + |counts| == markers + Sum(counts)
  {
    var sizes := Sizes(slots, counts);
    assert Copies(sizes, markers) == sizes + Ones(markers - |sizes|);
    hide *;
    SumAppend(sizes, Ones(markers - |sizes|));
    SumOnes(markers - |sizes|);
    SumSizes(slots, counts);
  }

  lemma {:induction false} RepeatLength(m: string, n: nat)
    ensures |Repeat(m, n)| == n * |m|
  {
    if n > 0 {
      RepeatLength(m, n - 1);
      assert n * |m| == (n - 1) * |m| + |m|;
    }
  }

  /** The step of `PlaceIs` behind a marker at `i`. */
  lemma PlaceBehind(i: nat, n: nat, copies: seq<nat>, j: nat, first: nat, later: nat, start: nat)
    requires 0 < j < |copies| && first == copies[0] * n
    requires i + n + later + (j - 1) * n == start + Offset(copies[1..], j - 1) * n
    ensures i + first + later + j * n == start + Offset(copies, j) * n
  {
    OffsetNext(copies, j);
    hide *;
    Spread(copies[0], Offset(copies[1..], j - 1), n);
    Spread(j - 1, 1, n);
  }

  /** In the expanded prompt slot `j`'s markers start where its marker stood, moved by what was added before it. */
  lemma {:induction false} PlaceIs(s: string, m: string, i: nat, from: nat, copies: seq<nat>, j: nat)
    requires m != "" && from <= i <= |s| && j < |Starts(s, m, i)| == |copies|
    ensures from + |JoinedTo(Pieces(s, m, i, from), copies, m, j)| + j * |m| == Starts(s, m, i)[j] + Offset(copies, j) * |m|
    decreases |s| - i
  {
    hide *;
    if i + |m| <= |s| && At(s, i, m) {
      CutAt(s, m, i, from);
      var next := i + |m|;
      JoinedToBehind(s[from..i], Pieces(s, m, next, next), copies, m, j);
      if j > 0 {
        PlaceIs(s, m, next, next, copies[1..], j - 1);
        RepeatLength(m, copies[0]);
        var later := |JoinedTo(Pieces(s, m, next, next), copies[1..], m, j - 1)|;
        PlaceBehind(i, |m|, copies, j, |Repeat(m, copies[0])|, later, Starts(s, m, i)[j]);
      } else {
        NothingBefore(copies, |m|);
      }
    } else {
      NoCutAt(s, m, i, from);
      PlaceIs(s, m, i + 1, from, copies, j);
    }
  }

  lemma JoinedToBehind(piece: string, pieces: seq<string>, copies: seq<nat>, m: string, j: nat)
    requires |pieces| == |copies| && j < |copies|
    ensures |JoinedTo([piece] + pieces, copies, m, j)| == |piece| +
      if j == 0 then 0 else |Repeat(m, copies[0])| + |JoinedTo(pieces, copies[1..], m, j - 1)|
  {
    assert ([piece] + pieces)[1..] == pieces;
  }

  lemma NothingBefore(copies: seq<nat>, n: nat)
    ensures Offset(copies, 0) * n == 0
  {
    assert copies[..0] == [];
  }

  lemma Spread(a: nat, b: nat, n: nat)
    ensures (a + b) * n == a * n + b * n
  {}

  /** Where the markers of slot `j` start in the expanded prompt. */
  function Place(prompt: string, m: string, slots: seq<Slot>, counts: seq<nat>, j: nat): nat
    requires m != "" && Pdfs(slots) <= |counts| && j < |slots| <= |Starts(prompt, m, 0)|
  {
    |JoinedTo(Pieces(prompt, m, 0, 0), Copies(Sizes(slots, counts), |Starts(prompt, m, 0)|), m, j)|
  }

  /**
   The markers of slot `j` stand in the text one behind the other where the slot's marker stood in the
   prompt, moved by the markers added before it; and they are as many, and as far down the list of
   all markers, as the slot's images are among all images.
   */
  ghost predicate MarkersOf(text: string, prompt: string, m: string, slots: seq<Slot>, counts: seq<nat>, j: nat)
    requires m != "" && Pdfs(slots) <= |counts| && j < |slots| <= |Starts(prompt, m, 0)|
  {
    var sizes, at := Sizes(slots, counts), Place(prompt, m, slots, counts, j);
    && HoldsBlock(Starts(text, m, 0), sizes, j, RepeatStarts(m, sizes[j], at))
    && at + j * |m| == Starts(prompt, m, 0)[j] + Offset(sizes, j) * |m|
  }

  lemma ExpandedBlock(prompt: string, m: string, slots: seq<Slot>, counts: seq<nat>, text: string, j: nat)
    requires m != "" && Pdfs(slots) <= |counts| && j < |slots| <= |Starts(prompt, m, 0)|
    requires Starts(text, m, 0)
          == JoinStarts(Pieces(prompt, m, 0, 0), Copies(Sizes(slots, counts), |Starts(prompt, m, 0)|), m, 0)
    ensures MarkersOf(text, prompt, m, slots, counts, j)
  {
    hide Starts, JoinStarts, RepeatStarts, JoinedTo, Pieces, Sizes, Offset;
    var sizes, markers := Sizes(slots, counts), |Starts(prompt, m, 0)|;
    MarkerBlock(Pieces(prompt, m, 0, 0), Copies(sizes, markers), m, 0, j);
    OffsetPrefix(sizes, Ones(markers - |sizes|), j);
    PlaceIs(prompt, m, 0, 0, Copies(sizes, markers), j);
  }

  /** The markers of an expanded prompt, slot by slot. */
  lemma ExpandedMarkers(prompt: string, m: string, slots: seq<Slot>, counts: seq<nat>, text: string)
    requires m in MARKERS && m != "" && Pdfs(slots) == |counts| && |slots| <= |Starts(prompt, m, 0)| && Positive(counts)
    requires text == Join(Pieces(prompt, m, 0, 0), Copies(Sizes(slots, counts), |Starts(prompt, m, 0)|), m)
    ensures |Starts(text, m, 0)| + |counts| == |Starts(prompt, m, 0)| + Sum(counts)
    ensures forall j | 0 <= j < |slots| :: MarkersOf(text, prompt, m, slots, counts, j)
  {
    hide Starts, Pieces, Join, JoinStarts, Sizes, Copies, MarkersOf, Unbordered;
    MarkersAreUnbordered(m);
    ExpandedStarts(prompt, m, slots, counts, text);
    var markers := |Starts(prompt, m, 0)|;
    JoinCount(Pieces(prompt, m, 0, 0), Copies(Sizes(slots, counts), markers), m, 0);
    CopiesSum(slots, counts, markers);
    forall j | 0 <= j < |slots| ensures MarkersOf(text, prompt, m, slots, counts, j) {
      ExpandedBlock(prompt, m, slots, counts, text, j);
    }
  }

  function Pages(n: nat): (r: seq<string>)
    ensures |r| == n
  {
    seq(n, k => "pdf")
  }

  predicate KnownOrigins(origins: seq<string>) {
    forall o | o in origins :: o == "image" || o == "pdf" || o == "video"
  }

  /** The request can be built: its slots match its inputs, no PDF is empty, and the prompt has a marker for each slot. */
  ghost predicate Buildable(prompt: string, slots: seq<Slot>, images: nat, counts: seq<nat>) {
    && Pdfs(slots) == |counts| && Images(slots) == images && Positive(counts)
    && FirstMarker(prompt, 0).Some? && |slots| <= |Starts(prompt, Marker(prompt), 0)|
  }

  /** What the request becomes, slot by slot, and as a text. */
  ghost predicate Aligned<T>(b: Built<T>, prompt: string, slots: seq<Slot>, images: seq<T>, origins: seq<string>, pages: seq<T>, counts: seq<nat>)
    requires Buildable(prompt, slots, |images|, counts)
  {
    var m, sizes := Marker(prompt), Sizes(slots, counts);
    && b.prompt == Join(Pieces(prompt, m, 0, 0), Copies(sizes, |Starts(prompt, m, 0)|), m)
    && |Starts(b.prompt, m, 0)| + |counts| == |Starts(prompt, m, 0)| + Sum(counts)
    && |b.images| == |b.origins| == Sum(sizes)
    && forall j | 0 <= j < |slots| ::
      && HoldsBlock(b.images, sizes, j, Block(slots, images, pages, counts, j))
      && HoldsBlock(b.origins, sizes, j, Block(slots, origins, Pages(|pages|), counts, j))
      && MarkersOf(b.prompt, prompt, m, slots, counts, j)
  }

  /**
   The part of `build_multimodal_prompt` that deals with images and PDFs: when it succeeds, and that
   then, for each slot, the markers, the images and the origins from the same offset on are those of
   that slot, so that the k-th marker, the k-th image and the k-th origin belong together; the
   markers stand where the slot's marker stood, and grow by the pages less one of each PDF.
   */
  method Build<T>(prompt: string, order: Option<seq<string>>, images: seq<T>, origins: seq<string>, pages: seq<T>, counts: seq<nat>)
    returns (r: Result<Built<T>>)
    requires Sum(counts) == |pages|
    ensures r.Ok? <==>
      && |origins| == |images| && KnownOrigins(origins)
      && (counts != [] ==> Buildable(prompt, SlotsFor(order, |images|, |counts|), |images|, counts))
    ensures r.Ok? && counts != [] ==>
      Aligned(r.value, prompt, SlotsFor(order, |images|, |counts|), images, origins, pages, counts)
    ensures r.Ok? && counts == [] ==> r.value == Built(prompt, images, origins)
  {
    if |origins| != |images| || !KnownOrigins(origins) { return Fail; }
    if counts == [] { return Ok(Built(prompt, images, origins)); }
    hide Starts, Pieces, Join, Sizes, Block, HoldsBlock, SlotTypes, Aligned, Merged, Images, Pdfs, Positive, Marker;
    var slots := SlotsFor(order, |images|, |counts|);
    var sources := Pages(|pages|);
    var from := Merge(slots, origins, sources, counts);
    MergedExactly(slots, origins, sources, counts);
    if from.None? { return Fail; }
    var marker := DetectMarker(prompt);
    if marker.None? { return Fail; }
    var text := Expand(prompt, marker.value, slots, counts);
    if text.Fail? { return Fail; }
    var merged := Merge(slots, images, pages, counts);
    MergedExactly(slots, images, pages, counts);
    if merged.None? { return Fail; }
    r := Ok(Built(text.value, merged.value, from.value));
    BuiltAligned(r.value, prompt, slots, images, origins, pages, counts);
  }

  lemma BuiltAligned<T>(b: Built<T>, prompt: string, slots: seq<Slot>, images: seq<T>, origins: seq<string>, pages: seq<T>, counts: seq<nat>)
    requires Buildable(prompt, slots, |images|, counts) && Sum(counts) == |pages|
    requires Merged(slots, images, pages, counts) == Some(b.images)
    requires Merged(slots, origins, Pages(|pages|), counts) == Some(b.origins)
    requires var m := Marker(prompt); b.prompt == Join(Pieces(prompt, m, 0, 0), Copies(Sizes(slots, counts), |Starts(prompt, m, 0)|), m)
    ensures Aligned(b, prompt, slots, images, origins, pages, counts)
  {
    hide Starts, Pieces, Join, Sizes, MarkersOf, Block, HoldsBlock, Marker, Copies, Merged;
    MergedSizes(slots, images, pages, counts);
    MergedSizes(slots, origins, Pages(|pages|), counts);
    ExpandedMarkers(prompt, Marker(prompt), slots, counts, b.prompt);
    forall j | 0 <= j < |slots|
      ensures HoldsBlock(b.images, Sizes(slots, counts), j, Block(slots, images, pages, counts, j))
      ensures HoldsBlock(b.origins, Sizes(slots, counts), j, Block(slots, origins, Pages(|pages|), counts, j))
    {
      MergedBlock(slots, images, pages, counts, j);
      MergedBlock(slots, origins, Pages(|pages|), counts, j);
    }
  }
}
