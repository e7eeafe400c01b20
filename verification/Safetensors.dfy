/** Structural admission of safetensors files (backends/vllm_deepseek/checkpoint_preflight.py). */
module Safetensors {
  import opened Wrappers

  datatype Span = Span(start: nat, end: nat)

  datatype Tensor = Tensor(bits: nat, shape: seq<nat>, span: Span)

  // ---------------------------------------------------------------- tensor sizes

  function Product(shape: seq<nat>): nat {
    if shape == [] then 1 else shape[0] * Product(shape[1..])
  }

  /** What a size check without any early exit would say: the elements fill the span exactly. */
  predicate FillsSpan(t: Tensor, payload: nat) {
    && t.span.start <= t.span.end <= payload
    && (Product(t.shape) * t.bits) % 8 == 0
    && t.span.end - t.span.start == Product(t.shape) * t.bits / 8
  }

  lemma {:induction false} ZeroProduct(shape: seq<nat>)
    requires 0 in shape
    ensures Product(shape) == 0
  {
    if shape[0] != 0 { ZeroProduct(shape[1..]); }
  }

  lemma {:induction false} PositiveProduct(shape: seq<nat>)
    requires 0 !in shape
    ensures Product(shape) >= 1
  {
    if shape != [] {
      PositiveProduct(shape[1..]);
      AtLeast(shape[0], Product(shape[1..]));
    }
  }

  lemma AtLeast(a: nat, b: nat)
    requires b >= 1
    ensures a * b >= a
  {}

  lemma Assoc(a: nat, b: nat, c: nat)
    ensures a * (b * c) == (a * b) * c
  {}

  lemma FilledBits(t: Tensor, payload: nat)
    requires FillsSpan(t, payload)
    ensures Product(t.shape) * t.bits <= payload * 8
  {}

  lemma NonzeroFactor(a: nat, b: nat)
    requires a * b >= 1
    ensures b >= 1
  {}

  /** More elements than bits in the payload never fill a span of it. */
  lemma TooMany(elements: nat, total: nat, t: Tensor, payload: nat)
    requires elements > payload * 8 + 1 && total >= elements && total == Product(t.shape) && t.bits >= 1
    ensures !FillsSpan(t, payload)
  {
    AtLeast(total, t.bits);
    if FillsSpan(t, payload) { FilledBits(t, payload); }
  }

  /** The size checks of one tensor: the running product stops as soon as it exceeds the payload, and never wrongly. */
  method CheckSize(t: Tensor, payload: nat) returns (ok: bool)
    requires t.bits >= 1
    ensures ok <==> FillsSpan(t, payload)
  {
    if t.span.end < t.span.start || t.span.end > payload { return false; }
    var elements := if 0 in t.shape then 0 else 1;
    if 0 in t.shape { ZeroProduct(t.shape); } else { PositiveProduct(t.shape); }
    assert t.shape[0..] == t.shape;
    for i := 0 to |t.shape|
      invariant elements * Product(t.shape[i..]) == Product(t.shape)
      invariant if 0 in t.shape then elements == 0 else Product(t.shape) >= 1
    {
      assert t.shape[i..][1..] == t.shape[i + 1..];
      Assoc(elements, t.shape[i], Product(t.shape[i + 1..]));
      elements := elements * t.shape[i];
      if elements > payload * 8 + 1 {
        NonzeroFactor(elements, Product(t.shape[i + 1..]));
        AtLeast(elements, Product(t.shape[i + 1..]));
        TooMany(elements, Product(t.shape), t, payload);
        return false;
      }
    }
    var bits := elements * t.bits;
    return bits % 8 == 0 && t.span.end - t.span.start == bits / 8;
  }

  // ---------------------------------------------------------------- spans

  predicate Before(a: Span, b: Span) {
    a.start < b.start || (a.start == b.start && a.end <= b.end)
  }

  predicate Ordered(spans: seq<Span>) {
    forall i, j | 0 <= i < j < |spans| :: Before(spans[i], spans[j])
  }

  function Insert(s: Span, spans: seq<Span>): seq<Span> {
    if spans == [] || Before(s, spans[0]) then [s] + spans else [spans[0]] + Insert(s, spans[1..])
  }

  /** `sorted`. */
  function Sort(spans: seq<Span>): seq<Span> {
    if spans == [] then [] else Insert(spans[0], Sort(spans[1..]))
  }

  function One(b: bool): nat { if b then 1 else 0 }

  predicate Covers(s: Span, byte: nat) {
    s.start <= byte < s.end
  }

  /** How many spans hold a byte. */
  function Cover(spans: seq<Span>, byte: nat): nat {
    if spans == [] then 0 else One(Covers(spans[0], byte)) + Cover(spans[1..], byte)
  }

  predicate Within(spans: seq<Span>, payload: nat) {
    forall s | s in spans :: s.start <= s.end <= payload
  }

  /** No empty span lies strictly inside another span. */
  predicate EmptiesOnBoundaries(spans: seq<Span>) {
    forall s, t | s in spans && t in spans && s.start == s.end :: !(t.start < s.start < t.end)
  }

  /** The spans hold each byte of the payload exactly once, and empty ones sit on boundaries. */
  predicate Tiles(spans: seq<Span>, payload: nat) {
    (forall byte | 0 <= byte < payload :: Cover(spans, byte) == 1) && EmptiesOnBoundaries(spans)
  }

  predicate Chain(spans: seq<Span>, cursor: nat, payload: nat) {
    if spans == [] then cursor == payload
    else spans[0].start == cursor && Chain(spans[1..], spans[0].end, payload)
  }

  /** The loop over the sorted spans. */
  method CheckSpans(spans: seq<Span>, payload: nat) returns (ok: bool)
    requires Within(spans, payload)
    ensures ok <==> Tiles(spans, payload)
  {
    SpansTile(spans, payload);
    var sorted := Sort(spans);
    var cursor := 0;
    assert sorted[0..] == sorted;
    for i := 0 to |sorted|
      invariant Chain(sorted, 0, payload) == Chain(sorted[i..], cursor, payload)
    {
      assert sorted[i..][1..] == sorted[i + 1..];
      if sorted[i].start != cursor { return false; }
      cursor := sorted[i].end;
    }
    return cursor == payload;
  }

  // ---------------------------------------------------------------- sorting changes nothing that counts

  lemma {:induction false} InsertKeeps(s: Span, spans: seq<Span>, byte: nat)
    requires Ordered(spans)
    ensures Ordered(Insert(s, spans))
    ensures Cover(Insert(s, spans), byte) == One(Covers(s, byte)) + Cover(spans, byte)
    ensures forall x :: x in Insert(s, spans) <==> x == s || x in spans
  {
    if spans == [] || Before(s, spans[0]) {
      assert ([s] + spans)[1..] == spans;
    } else {
      var rest := Insert(s, spans[1..]);
      InsertKeeps(s, spans[1..], byte);
      assert ([spans[0]] + rest)[1..] == rest;
      forall j | 0 <= j < |rest| ensures Before(spans[0], rest[j]) { assert rest[j] in rest; }
    }
  }

  lemma {:induction false} SortKeeps(spans: seq<Span>, byte: nat)
    ensures Ordered(Sort(spans))
    ensures Cover(Sort(spans), byte) == Cover(spans, byte)
    ensures forall x :: x in Sort(spans) <==> x in spans
  {
    hide Insert, Before;
    if spans != [] {
      SortKeeps(spans[1..], byte);
      InsertKeeps(spans[0], Sort(spans[1..]), byte);
    }
  }

  // ---------------------------------------------------------------- a chain is a tiling

  predicate AllFrom(spans: seq<Span>, cursor: nat) {
    forall s | s in spans :: s.start >= cursor
  }

  lemma {:induction false} CoverNone(spans: seq<Span>, byte: nat)
    requires AllFrom(spans, byte + 1)
    ensures Cover(spans, byte) == 0
  {
    if spans != [] { CoverNone(spans[1..], byte); }
  }

  lemma {:induction false} CoverSome(spans: seq<Span>, s: Span, byte: nat)
    requires s in spans && Covers(s, byte)
    ensures Cover(spans, byte) >= 1
  {
    if spans[0] != s { CoverSome(spans[1..], s, byte); }
  }

  /** Each byte from `cursor` on is held once, and empty spans sit on boundaries. */
  predicate TilesFrom(spans: seq<Span>, cursor: nat, payload: nat) {
    && (forall byte | cursor <= byte < payload :: Cover(spans, byte) == 1)
    && EmptiesOnBoundaries(spans) && AllFrom(spans, cursor)
  }

  lemma {:induction false} ChainTiles(spans: seq<Span>, cursor: nat, payload: nat)
    requires Within(spans, payload) && cursor <= payload && Chain(spans, cursor, payload)
    ensures TilesFrom(spans, cursor, payload)
  {
    if spans != [] {
      var s, rest := spans[0], spans[1..];
      assert s in spans;
      ChainTiles(rest, s.end, payload);
      forall byte | cursor <= byte < payload ensures Cover(spans, byte) == 1 {
        if byte < s.end { CoverNone(rest, byte); }
      }
      forall x, t | x in spans && t in spans && x.start == x.end ensures !(t.start < x.start < t.end) {}
    }
  }

  /** In a tiling the first span in order starts at the cursor. */
  lemma FirstStarts(spans: seq<Span>, cursor: nat, payload: nat)
    requires spans != [] && Within(spans, payload) && Ordered(spans) && cursor <= payload && TilesFrom(spans, cursor, payload)
    ensures spans[0].start == cursor
  {
    assert spans[0] in spans;
    if spans[0].start > cursor {
      forall s | s in spans ensures s.start >= cursor + 1 {}
      CoverNone(spans, cursor);
    }
  }

  /** In a tiling the spans behind the first one start where it ends, or later. */
  lemma RestStarts(spans: seq<Span>, cursor: nat, payload: nat, x: Span)
    requires spans != [] && Within(spans, payload) && Ordered(spans) && cursor <= payload && TilesFrom(spans, cursor, payload)
    requires spans[0].start == cursor && x in spans[1..]
    ensures x.start >= spans[0].end
  {
    var s, rest := spans[0], spans[1..];
    var j :| 0 <= j < |rest| && rest[j] == x;
    assert spans[j + 1] == x && s in spans && x in spans;
    assert Before(spans[0], spans[j + 1]);
    if x.start < s.end && x.start < x.end { CoveredTwice(spans, x); }
  }

  lemma CoveredTwice(spans: seq<Span>, x: Span)
    requires spans != [] && x in spans[1..] && Covers(spans[0], x.start) && x.start < x.end
    ensures Cover(spans, x.start) >= 2
  {
    CoverSome(spans[1..], x, x.start);
  }

  lemma {:induction false} TilesChain(spans: seq<Span>, cursor: nat, payload: nat)
    requires Within(spans, payload) && Ordered(spans) && cursor <= payload && TilesFrom(spans, cursor, payload)
    ensures Chain(spans, cursor, payload)
  {
    if spans == [] {
      CoverNone(spans, cursor);
    } else {
      var s, rest := spans[0], spans[1..];
      FirstStarts(spans, cursor, payload);
      assert s in spans;
      forall x | x in rest ensures x.start >= s.end { RestStarts(spans, cursor, payload, x); }
      forall byte | s.end <= byte < payload ensures Cover(rest, byte) == 1 { assert Cover(spans, byte) == 1; }
      TilesChain(rest, s.end, payload);
    }
  }

  /** In whatever order the header lists them, the sorted spans form a chain exactly when they tile the payload. */
  lemma SpansTile(spans: seq<Span>, payload: nat)
    requires Within(spans, payload)
    ensures Chain(Sort(spans), 0, payload) <==> Tiles(spans, payload)
  {
    var sorted := Sort(spans);
    forall byte: nat ensures Cover(sorted, byte) == Cover(spans, byte) { SortKeeps(spans, byte); }
    SortKeeps(spans, 0);
    if Chain(sorted, 0, payload) { ChainTiles(sorted, 0, payload); }
    if Tiles(spans, payload) { TilesChain(sorted, 0, payload); }
  }

  function SpansOf(tensors: seq<Tensor>): (r: seq<Span>)
    ensures |r| == |tensors| && forall i | 0 <= i < |r| :: r[i] == tensors[i].span
  {
    seq(|tensors|, i requires 0 <= i < |tensors| => tensors[i].span)
  }

  /**
   The checks of `_validate_header` on sizes and offsets: a header is accepted exactly when each
   tensor fills its span and the spans tile the payload, in whatever order the tensors are listed.
   */
  method ValidateTensors(tensors: seq<Tensor>, payload: nat) returns (ok: bool)
    requires forall t | t in tensors :: t.bits >= 1
    ensures ok <==> (forall t | t in tensors :: FillsSpan(t, payload)) && Tiles(SpansOf(tensors), payload)
  {
    hide FillsSpan, Tiles;
    for i := 0 to |tensors|
      invariant forall k | 0 <= k < i :: FillsSpan(tensors[k], payload)
    {
      var fits := CheckSize(tensors[i], payload);
      if !fits {
        assert tensors[i] in tensors;
        return false;
      }
    }
    assert Within(SpansOf(tensors), payload) by { FilledWithin(tensors, payload); }
    ok := CheckSpans(SpansOf(tensors), payload);
  }

  lemma FilledWithin(tensors: seq<Tensor>, payload: nat)
    requires forall i | 0 <= i < |tensors| :: FillsSpan(tensors[i], payload)
    ensures Within(SpansOf(tensors), payload)
  {}

  // ---------------------------------------------------------------- the index and its shards

  /** The loop over the shards: each holds exactly the tensors that the index assigns to it. */
  method CheckClosure(index: map<string, string>, held: map<string, set<string>>) returns (ok: bool, names: set<string>)
    requires index.Values <= held.Keys
    ensures ok <==> forall f | f in index.Values :: held[f] == set n | n in index && index[n] == f
    ensures ok ==> names == index.Keys
    ensures ok ==> forall n, f | f in index.Values :: n in held[f] <==> n in index && index[n] == f
  {
    var left := index.Values;
    names := {};
    while left != {}
      invariant left <= index.Values
      invariant names == set n | n in index && index[n] !in left
      invariant forall f | f in index.Values - left :: held[f] == set n | n in index && index[n] == f
    {
      var f :| f in left;
      left := left - {f};
      if held[f] != set n | n in index && index[n] == f { return false, names; }
      // No name was seen before, so the check for a duplicate across shards never fires.
      assert names !! held[f];
      names := names + held[f];
    }
    ok := true;
  }
}
