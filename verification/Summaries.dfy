/**
 Rolling summaries and their cache (gateway/context_compression.py). Messages are their serialized
 payloads. The hash and the text splitter are parameters, and the summary model is an oracle that
 answers, or not, call by call.
 */
module Summaries {
  import opened Wrappers
  import opened Text

  type Byte = nat

  type Payload = seq<Byte>

  // ---------------------------------------------------------------- length framing

  /** `to_bytes(k, "big")`. */
  function BigEndian(n: nat, k: nat): (r: seq<Byte>)
    ensures |r| == k
    decreases k
  {
    if k == 0 then [] else BigEndian(n / 256, k - 1) + [n % 256]
  }

  function Power(k: nat): (r: nat)
    ensures r >= 1
  {
    if k == 0 then 1 else 256 * Power(k - 1)
  }

  /** What the digest has been fed for these messages: each payload behind its length. */
  function Framed(messages: seq<Payload>): seq<Byte>
    decreases |messages|
  {
    if messages == [] then []
    else Framed(messages[..|messages| - 1]) + Frame(messages[|messages| - 1])
  }

  function Frame(p: Payload): (r: seq<Byte>)
    ensures |r| == 8 + |p|
  {
    BigEndian(|p|, 8) + p
  }

  /** Lengths that eight bytes can hold. */
  predicate Sized(messages: seq<Payload>) {
    forall p | p in messages :: |p| < Power(8)
  }

  lemma {:induction false} BigEndianInjective(n: nat, m: nat, k: nat)
    requires n < Power(k) && m < Power(k) && BigEndian(n, k) == BigEndian(m, k)
    ensures n == m
    decreases k
  {
    if k > 0 {
      var a, b := BigEndian(n / 256, k - 1), BigEndian(m / 256, k - 1);
      assert (a + [n % 256])[..k - 1] == a && (b + [m % 256])[..k - 1] == b;
      assert (a + [n % 256])[k - 1] == n % 256 && (b + [m % 256])[k - 1] == m % 256;
      BigEndianInjective(n / 256, m / 256, k - 1);
    }
  }

  /** The frames from the first message on. */
  function FramedForward(messages: seq<Payload>): seq<Byte> {
    if messages == [] then [] else Frame(messages[0]) + FramedForward(messages[1..])
  }

  lemma {:induction false} FramedBothWays(messages: seq<Payload>)
    ensures Framed(messages) == FramedForward(messages)
    decreases |messages|
  {
    hide Frame;
    if messages != [] {
      var n := |messages| - 1;
      FramedBothWays(messages[..n]);
      ForwardAppend(messages[..n], messages[n]);
      assert messages[..n] + [messages[n]] == messages;
    }
  }

  lemma {:induction false} ForwardAppend(messages: seq<Payload>, p: Payload)
    ensures FramedForward(messages + [p]) == FramedForward(messages) + Frame(p)
  {
    hide Frame;
    if messages == [] {
      assert [p][1..] == [];
      assert Frame(p) + [] == Frame(p);
    } else {
      ForwardAppend(messages[1..], p);
      assert (messages + [p])[1..] == messages[1..] + [p];
      assert Frame(messages[0]) + (FramedForward(messages[1..]) + Frame(p))
          == Frame(messages[0]) + FramedForward(messages[1..]) + Frame(p);
    }
  }

  lemma FirstFrame(p: Payload, q: Payload, a: seq<Byte>, b: seq<Byte>)
    requires |p| < Power(8) && |q| < Power(8) && Frame(p) + a == Frame(q) + b
    ensures p == q && a == b
  {
    hide BigEndian, Power;
    assert BigEndian(|p|, 8) == (Frame(p) + a)[..8] == (Frame(q) + b)[..8] == BigEndian(|q|, 8);
    BigEndianInjective(|p|, |q|, 8);
    assert p == (Frame(p) + a)[8..8 + |p|] && q == (Frame(q) + b)[8..8 + |q|];
    assert a == (Frame(p) + a)[8 + |p|..] && b == (Frame(q) + b)[8 + |q|..];
  }

  lemma {:induction false} ForwardInjective(a: seq<Payload>, b: seq<Payload>)
    requires Sized(a) && Sized(b) && FramedForward(a) == FramedForward(b)
    ensures a == b
  {
    hide Frame, Power;
    if a != [] && b != [] {
      FirstFrame(a[0], b[0], FramedForward(a[1..]), FramedForward(b[1..]));
      ForwardInjective(a[1..], b[1..]);
    }
  }

  /** Two lists of messages whose framed bytes agree are the same list. */
  lemma FramingInjective(a: seq<Payload>, b: seq<Payload>)
    requires Sized(a) && Sized(b) && Framed(a) == Framed(b)
    ensures a == b
  {
    FramedBothWays(a);
    FramedBothWays(b);
    ForwardInjective(a, b);
  }

  /** `_boundary_hashes`: one digest, read after each message. */
  method BoundaryHashes(messages: seq<Payload>, hash: seq<Byte> -> string) returns (hashes: seq<string>)
    ensures |hashes| == |messages|
    ensures forall i | 0 <= i < |messages| :: hashes[i] == hash(Framed(messages[..i + 1]))
  {
    hide BigEndian;
    hashes := [];
    var digest := [];
    for i := 0 to |messages|
      invariant digest == Framed(messages[..i]) && |hashes| == i
      invariant forall k | 0 <= k < i :: hashes[k] == hash(Framed(messages[..k + 1]))
    {
      assert messages[..i + 1][..i] == messages[..i];
      assert digest + BigEndian(|messages[i]|, 8) + messages[i] == digest + Frame(messages[i]);
      digest := digest + BigEndian(|messages[i]|, 8) + messages[i];
      hashes := hashes + [hash(digest)];
    }
  }

  // ---------------------------------------------------------------- provenance

  /** One call of the summary model: what it was told, and what it answered. */
  datatype Call = Call(previous: Option<string>, chunk: string, answer: string)

  /** `_format_summary_source`: the text of some messages, given how many come before them. */
  type Format = (seq<Payload>, nat) -> string

  /** `_split_text_by_tokens` for a tokenizer and a limit, which may differ from request to request. */
  type Splitter = string -> seq<string>

  /** A text is cut into one chunk at least. */
  ghost predicate Cuts(split: Splitter) {
    forall text: string :: split(text) != []
  }

  /** One pass over the messages `sources`, the first of which is number `offset + 1`, cut by `split`. */
  datatype Round = Round(offset: nat, sources: seq<Payload>, split: Splitter, calls: seq<Call>)

  function Strip(s: string): string {
    RStrip(s)[SkipSpace(RStrip(s), 0)..]
  }

  lemma CutAt(s: string, i: nat)
    requires i <= |s|
    ensures s == s[..i] + s[i..]
    ensures AllSpace(s, 0, i) ==> AllSpace(s[..i], 0, i)
    ensures AllSpace(s, i, |s|) ==> AllSpace(s[i..], 0, |s| - i)
  {
    hide IsSpace;
  }

  /** `str.strip()` takes away all spaces at both ends, and nothing else. */
  lemma StripTrims(s: string) returns (before: string, behind: string)
    ensures s == before + Strip(s) + behind && AllSpace(before, 0, |before|) && AllSpace(behind, 0, |behind|)
    ensures Strip(s) != "" ==> !IsSpace(Strip(s)[0]) && !IsSpace(Strip(s)[|Strip(s)| - 1])
  {
    hide IsSpace, AllSpace, RStrip, SkipSpace;
    var t := RStrip(s);
    var k := SkipSpace(t, 0);
    before, behind := t[..k], s[|t|..];
    CutAt(s, |t|);
    CutAt(t, k);
    assert Strip(s) == t[k..] && s[..|t|] == t;
    if k < |t| { assert Strip(s)[0] == t[k] && Strip(s)[|Strip(s)| - 1] == t[|t| - 1]; }
  }

  /** The calls fold over `chunks` from `previous` on, each told what the one before answered. */
  predicate Folds(calls: seq<Call>, previous: Option<string>, chunks: seq<string>) {
    |calls| == |chunks| && forall i | 0 <= i < |calls| :: FoldsAt(calls, previous, chunks[i], i)
  }

  /** Call `i` is about `chunk`, is told what the one before answered, and has an answer. */
  predicate FoldsAt(calls: seq<Call>, previous: Option<string>, chunk: string, i: nat)
    requires i < |calls|
  {
    && calls[i].chunk == chunk && Strip(calls[i].answer) != ""
    && calls[i].previous == if i == 0 then previous else Some(Strip(calls[i - 1].answer))
  }

  /** The summary that the calls end with. */
  function Outcome(calls: seq<Call>, previous: Option<string>): Option<string> {
    if calls == [] then previous else Some(Strip(calls[|calls| - 1].answer))
  }

  function ResultOf(rounds: seq<Round>): Option<string>
    decreases |rounds|
  {
    if rounds == [] then None
    else Outcome(rounds[|rounds| - 1].calls, ResultOf(rounds[..|rounds| - 1]))
  }

  /** The rounds fold over `messages`: each takes up, with its numbering, where the one before ended. */
  predicate Derives(format: Format, rounds: seq<Round>, messages: seq<Payload>)
    decreases |rounds|
  {
    if rounds == [] then messages == [] else
      var last, before := rounds[|rounds| - 1], rounds[..|rounds| - 1];
      && last.offset < |messages| && last.sources == messages[last.offset..]
      && Derives(format, before, messages[..last.offset])
      && last.calls != []
      && Folds(last.calls, ResultOf(before), last.split(format(last.sources, last.offset)))
  }

  function Sources(rounds: seq<Round>): seq<Payload>
    decreases |rounds|
  {
    if rounds == [] then [] else Sources(rounds[..|rounds| - 1]) + rounds[|rounds| - 1].sources
  }

  /** What the last round says. */
  lemma DerivesLast(format: Format, rounds: seq<Round>, messages: seq<Payload>)
    requires Derives(format, rounds, messages)
    ensures rounds == [] ==> messages == [] && Sources(rounds) == []
    ensures rounds != [] ==>
      var n := |rounds| - 1;
      && rounds[n].offset < |messages| && rounds[n].sources == messages[rounds[n].offset..]
      && Derives(format, rounds[..n], messages[..rounds[n].offset])
      && Sources(rounds) == Sources(rounds[..n]) + rounds[n].sources
  {
    hide Folds, ResultOf;
  }

  /** Every summarized message went into exactly one round, in order, under its own number. */
  lemma {:induction false} EachMessageOnce(format: Format, rounds: seq<Round>, messages: seq<Payload>)
    requires Derives(format, rounds, messages)
    ensures Sources(rounds) == messages
    ensures forall i | 0 <= i < |rounds| :: rounds[i].offset == |Sources(rounds[..i])|
    decreases |rounds|
  {
    DerivesLast(format, rounds, messages);
    hide *;
    if rounds != [] {
      var n := |rounds| - 1;
      EachMessageOnce(format, rounds[..n], messages[..rounds[n].offset]);
      assert messages[..rounds[n].offset] + messages[rounds[n].offset..] == messages;
      forall i | 0 <= i < |rounds| ensures rounds[i].offset == |Sources(rounds[..i])| {
        if i < n { RoundBefore(rounds, i, n); }
      }
    }
  }

  lemma RoundBefore(rounds: seq<Round>, i: nat, n: nat)
    requires i < n <= |rounds|
    ensures rounds[..n][..i] == rounds[..i] && rounds[..n][i] == rounds[i]
  {}

  // ---------------------------------------------------------------- the cache

  datatype Key = Key(model: string, summaryModel: string, version: string, boundary: string)

  datatype Entry = Entry(text: string, covered: nat, boundary: string)

  /** The entries without `key`. */
  function Others(entries: seq<(Key, Entry)>, key: Key): (r: seq<(Key, Entry)>)
    ensures forall e | e in r :: e in entries && e.0 != key
    ensures forall e | e in entries && e.0 != key :: e in r
    ensures |r| <= |entries|
  {
    if entries == [] then []
    else (if entries[0].0 == key then [] else [entries[0]]) + Others(entries[1..], key)
  }

  /** Taking out a key leaves the order of the other entries. */
  lemma {:induction false} OthersInOrder(entries: seq<(Key, Entry)>, e: (Key, Entry), key: Key)
    ensures Others(entries + [e], key) == Others(entries, key) + (if e.0 == key then [] else [e])
  {
    if entries == [] {
      assert [e][1..] == [] && entries + [e] == [e];
    } else {
      var all, first := entries + [e], if entries[0].0 == key then [] else [entries[0]];
      assert all[0] == entries[0] && all[1..] == entries[1..] + [e];
      OthersInOrder(entries[1..], e, key);
      Regroup(first, Others(entries[1..], key), if e.0 == key then [] else [e]);
    }
  }

  lemma Regroup<T>(a: seq<T>, b: seq<T>, c: seq<T>)
    ensures (a + b) + c == a + (b + c)
  {}

  /** The newest `n` entries. */
  function Newest(entries: seq<(Key, Entry)>, n: nat): seq<(Key, Entry)> {
    if |entries| <= n then entries else entries[|entries| - n..]
  }

  predicate DistinctKeys(entries: seq<(Key, Entry)>) {
    forall i, j | 0 <= i < j < |entries| :: entries[i].0 != entries[j].0
  }

  lemma {:induction false} OthersDistinct(entries: seq<(Key, Entry)>, key: Key)
    requires DistinctKeys(entries)
    ensures DistinctKeys(Others(entries, key))
    ensures forall e | e in entries && e.0 == key :: DistinctKeys(Others(entries, key) + [e])
  {
    if entries != [] {
      OthersDistinct(entries[1..], key);
      var rest := Others(entries[1..], key);
      forall j | 0 <= j < |rest| ensures rest[j].0 != entries[0].0 {
        assert rest[j] in entries[1..];
      }
    }
    var r := Others(entries, key);
    forall j | 0 <= j < |r| ensures r[j].0 != key { assert r[j] in r; }
  }

  /** How each cached summary came about: its messages, and the rounds over them. */
  type History = map<Key, (seq<Payload>, seq<Round>)>

  /** An entry is the outcome of rounds over exactly the messages that its key's boundary hashes. */
  ghost predicate Told(hash: seq<Byte> -> string, format: Format, told: History, key: Key, e: Entry) {
    && key in told
    && Sized(told[key].0) && Derives(format, told[key].1, told[key].0) && ResultOf(told[key].1) == Some(e.text)
    && key.boundary == e.boundary == hash(Framed(told[key].0)) && e.covered == |told[key].0| > 0
  }

  ghost predicate AllTold(hash: seq<Byte> -> string, format: Format, told: History, entries: seq<(Key, Entry)>) {
    forall e | e in entries :: Told(hash, format, told, e.0, e.1)
  }

  /** Moving an entry to the end. */
  lemma TouchKeeps(hash: seq<Byte> -> string, format: Format, told: History, entries: seq<(Key, Entry)>, e: (Key, Entry))
    requires DistinctKeys(entries) && AllTold(hash, format, told, entries) && e in entries
    ensures var now := Others(entries, e.0) + [e]; DistinctKeys(now) && AllTold(hash, format, told, now)
    ensures Told(hash, format, told, e.0, e.1)
  {
    hide Told;
    OthersDistinct(entries, e.0);
  }

  /** Storing an entry, and then evicting the oldest ones. */
  lemma PutKeeps(hash: seq<Byte> -> string, format: Format, told: History, entries: seq<(Key, Entry)>,
                 key: Key, e: Entry, messages: seq<Payload>, rounds: seq<Round>)
    requires DistinctKeys(entries) && AllTold(hash, format, told, entries)
    requires Told(hash, format, told[key := (messages, rounds)], key, e)
    ensures var now := Others(entries, key) + [(key, e)];
      DistinctKeys(now) && AllTold(hash, format, told[key := (messages, rounds)], now)
  {
    hide Derives, Framed, ResultOf, Sized;
    OthersDistinct(entries, key);
    var rest := Others(entries, key);
    forall k | 0 <= k < |rest| ensures rest[k].0 != key { assert rest[k] in rest; }
  }

  lemma {:induction false} KeepsNewest(hash: seq<Byte> -> string, format: Format, told: History, entries: seq<(Key, Entry)>)
    requires entries != [] && DistinctKeys(entries) && AllTold(hash, format, told, entries)
    ensures DistinctKeys(entries[1..]) && AllTold(hash, format, told, entries[1..])
  {
    hide Told;
  }

  /** The ordered dictionary, oldest entry first; `told` is history. */
  class SummaryCache {
    const hash: seq<Byte> -> string
    const format: Format
    var entries: seq<(Key, Entry)>
    ghost var told: History

    constructor (hash: seq<Byte> -> string, format: Format)
      ensures Valid() && this.hash == hash && this.format == format && entries == []
    {
      this.hash, this.format, entries, told := hash, format, [], map[];
    }

    ghost predicate Valid()
      reads this
    {
      DistinctKeys(entries) && AllTold(hash, format, told, entries)
    }

    /** `dict.get`. */
    method Find(key: Key) returns (r: Option<Entry>)
      ensures r.Some? ==> (key, r.value) in entries
      ensures r.None? ==> forall e | e in entries :: e.0 != key
    {
      for i := 0 to |entries|
        invariant forall k | 0 <= k < i :: entries[k].0 != key
      {
        if entries[i].0 == key {
          assert entries[i] == (key, entries[i].1);
          return Some(entries[i].1);
        }
      }
      return None;
    }

    /** No entry for a prefix of `hashes` that is longer than `n`. */
    ghost predicate NoneLonger(model: string, summaryModel: string, version: string, hashes: seq<string>, n: nat)
      reads this
    {
      forall k, e | n <= k < |hashes| && e in entries :: e.0 != Key(model, summaryModel, version, hashes[k])
    }

    /** `_get_cached_summary`: the entry of the longest prefix with one, which becomes the newest. */
    method Get(model: string, summaryModel: string, version: string, hashes: seq<string>, size: nat)
      returns (r: Option<(Entry, nat)>)
      requires Valid()
      modifies this`entries
      ensures Valid()
      ensures size == 0 ==> r.None?
      ensures r.None? ==> entries == old(entries)
      ensures r.None? && size > 0 ==> old(NoneLonger(model, summaryModel, version, hashes, 0))
      ensures r.Some? ==> 1 <= r.value.1 <= |hashes|
      ensures r.Some? ==> old(NoneLonger(model, summaryModel, version, hashes, r.value.1))
      ensures r.Some? ==>
        var key := Key(model, summaryModel, version, hashes[r.value.1 - 1]);
        && Told(hash, format, told, key, r.value.0)
        && (key, r.value.0) in old(entries) && entries == Others(old(entries), key) + [(key, r.value.0)]
    {
      hide Told, AllTold, DistinctKeys, Others;
      if size == 0 { return None; }
      var covered := |hashes|;
      while covered > 0
        invariant 0 <= covered <= |hashes| && entries == old(entries)
        invariant NoneLonger(model, summaryModel, version, hashes, covered)
      {
        var key := Key(model, summaryModel, version, hashes[covered - 1]);
        var entry := Find(key);
        if entry.Some? {
          TouchKeeps(hash, format, told, entries, (key, entry.value));
          entries := Others(entries, key) + [(key, entry.value)];
          return Some((entry.value, covered));
        }
        covered := covered - 1;
      }
      return None;
    }

    /** `_put_cached_summary`: stores or replaces an entry as the newest, then evicts the oldest ones. */
    method Put(key: Key, e: Entry, size: nat, ghost messages: seq<Payload>, ghost rounds: seq<Round>)
      requires Valid() && Told(hash, format, told[key := (messages, rounds)], key, e)
      modifies this`entries, this`told
      ensures Valid()
      ensures entries == if size == 0 then old(entries) else Newest(Others(old(entries), key) + [(key, e)], size)
    {
      hide Told, AllTold, DistinctKeys, Others;
      if size == 0 { return; }
      PutKeeps(hash, format, told, entries, key, e, messages, rounds);
      entries := Others(entries, key) + [(key, e)];
      told := told[key := (messages, rounds)];
      ghost var all := entries;
      while |entries| > size
        invariant Valid() && |entries| <= |all| && entries == all[|all| - |entries|..]
        invariant |entries| >= size || entries == all
      {
        KeepsNewest(hash, format, told, entries);
        entries := entries[1..];
      }
    }
  }

  // ---------------------------------------------------------------- summarizing

  /** The loop over the chunks: each call is told the summary so far; an empty or missing answer fails. */
  method Roll(chunks: seq<string>, previous: Option<string>, answers: seq<string>)
    returns (text: Option<string>, ok: bool, ghost calls: seq<Call>)
    ensures ok ==> Folds(calls, previous, chunks) && text == Outcome(calls, previous)
    ensures ok <==> |chunks| <= |answers| && forall i | 0 <= i < |chunks| :: Strip(answers[i]) != ""
    ensures ok ==> forall i | 0 <= i < |chunks| :: calls[i].answer == answers[i]
    ensures ok && chunks != [] ==> text == Some(Strip(answers[|chunks| - 1]))
  {
    hide Strip;
    text, calls := previous, [];
    for i := 0 to |chunks|
      invariant |calls| == i <= |answers|
      invariant Folds(calls, previous, chunks[..i]) && text == Outcome(calls, previous)
      invariant forall k | 0 <= k < i :: calls[k].answer == answers[k] && Strip(answers[k]) != ""
    {
      if i >= |answers| { return text, false, calls; }
      var summary := Strip(answers[i]);
      if summary == "" { return text, false, calls; }
      FoldsOne(calls, previous, chunks, i, Call(text, chunks[i], answers[i]));
      calls := calls + [Call(text, chunks[i], answers[i])];
      text := Some(summary);
    }
    assert chunks[..|chunks|] == chunks;
    return text, true, calls;
  }

  lemma FoldsOne(calls: seq<Call>, previous: Option<string>, chunks: seq<string>, i: nat, call: Call)
    requires i < |chunks| && Folds(calls, previous, chunks[..i])
    requires call.previous == Outcome(calls, previous) && call.chunk == chunks[i] && Strip(call.answer) != ""
    ensures Folds(calls + [call], previous, chunks[..i + 1])
  {
    hide Strip;
    var all, upTo := calls + [call], chunks[..i + 1];
    assert |calls| == |chunks[..i]| == i;
    forall k | 0 <= k < |all| ensures FoldsAt(all, previous, upTo[k], k) {
      if k < i {
        assert FoldsAt(calls, previous, chunks[..i][k], k);
        assert all[k] == calls[k] && upTo[k] == chunks[..i][k];
      } else {
        assert all[k] == call;
      }
      if k > 0 { assert all[k - 1] == calls[k - 1]; }
    }
  }

  /** No entry summarizes a prefix of `removed` that is longer than `n`. */
  ghost predicate NothingLonger(entries: seq<(Key, Entry)>, hash: seq<Byte> -> string, model: string, summaryModel: string,
                                version: string, removed: seq<Payload>, n: nat) {
    forall k, e | n < k <= |removed| && e in entries ::
      e.0 != Key(model, summaryModel, version, hash(Framed(removed[..k])))
  }

  function KeyFor(hash: seq<Byte> -> string, model: string, summaryModel: string, version: string, messages: seq<Payload>): Key {
    Key(model, summaryModel, version, hash(Framed(messages)))
  }

  /** What a lookup finds for the first `n` messages, and leaves: the entry it has used is the newest. */
  ghost predicate Uses(was: seq<(Key, Entry)>, now: seq<(Key, Entry)>, key: Key, n: nat, text: Option<string>) {
    if n == 0 then text == None && now == was
    else exists e | e in was :: e.0 == key && text == Some(e.1.text) && now == Others(was, key) + [e]
  }

  /** How much of `removed` the cache covers already, by which summary, and how that came about. */
  method Lookup(cache: SummaryCache, model: string, summaryModel: string, version: string, removed: seq<Payload>,
                hashes: seq<string>, size: nat)
    returns (covered: nat, previous: Option<string>, ghost rounds: seq<Round>)
    requires cache.Valid() && Sized(removed) && |hashes| == |removed|
    requires forall i | 0 <= i < |removed| :: hashes[i] == cache.hash(Framed(removed[..i + 1]))
    requires forall a, b :: cache.hash(a) == cache.hash(b) ==> a == b
    modifies cache`entries
    ensures cache.Valid() && covered <= |removed| && (size == 0 ==> covered == 0)
    ensures Derives(cache.format, rounds, removed[..covered]) && ResultOf(rounds) == previous
    ensures size > 0 ==> NothingLonger(old(cache.entries), cache.hash, model, summaryModel, version, removed, covered)
    ensures covered > 0 ==> previous.Some?
    ensures Uses(old(cache.entries), cache.entries, KeyFor(cache.hash, model, summaryModel, version, removed[..covered]), covered, previous)
  {
    hide Derives, Framed, AllTold, DistinctKeys, ResultOf, Others;
    var cached := cache.Get(model, summaryModel, version, hashes, size);
    forall k, e | (if cached.Some? then cached.value.1 else 0) < k <= |removed| && e in old(cache.entries) && size > 0
      ensures e.0 != Key(model, summaryModel, version, cache.hash(Framed(removed[..k])))
    {
      assert hashes[k - 1] == cache.hash(Framed(removed[..k]));
    }
    covered, previous, rounds := 0, None, [];
    DerivesNothing(cache.format);
    if cached.Some? {
      covered, previous := cached.value.1, Some(cached.value.0.text);
      ghost var key := Key(model, summaryModel, version, hashes[covered - 1]);
      FramingInjective(cache.told[key].0, removed[..covered]);
      rounds := cache.told[key].1;
      assert (key, cached.value.0) in old(cache.entries) && key == KeyFor(cache.hash, model, summaryModel, version, removed[..covered]);
    }
  }

  /** Each chunk has an answer that is not blank. */
  predicate AllAnswered(chunks: seq<string>, answers: seq<string>) {
    |chunks| <= |answers| && forall i | 0 <= i < |chunks| :: Strip(answers[i]) != ""
  }

  /** The summary of the last chunk, if there are calls enough, all of them answer, and it fits. */
  function Rolled(chunks: seq<string>, maxCalls: nat, answers: seq<string>, fits: string -> bool): Option<string> {
    if 0 < |chunks| <= maxCalls && AllAnswered(chunks, answers) && fits(Strip(answers[|chunks| - 1]))
    then Some(Strip(answers[|chunks| - 1])) else None
  }

  /** The entries with a new summary of `covered` messages as the newest. */
  function Stored(entries: seq<(Key, Entry)>, key: Key, text: string, covered: nat, size: nat): seq<(Key, Entry)> {
    if size == 0 then entries else Newest(Others(entries, key) + [(key, Entry(text, covered, key.boundary))], size)
  }

  /**
   The summary of `removed`: a cached one for all of it, or the longest cached prefix's rolled on
   over exactly the rest. Whatever is returned is a fold of generator calls over `removed`.
   There is an answer exactly if the summary for all of it is cached and fits, or if the chunks of the
   rest are no more than allowed, each is answered, and the last answer fits; only that one is stored.
   */
  method Summarize(cache: SummaryCache, model: string, summaryModel: string, version: string, removed: seq<Payload>,
                   size: nat, maxCalls: nat, split: Splitter, answers: seq<string>, fits: string -> bool)
    returns (r: Option<string>, sent: seq<Payload>, ghost rounds: seq<Round>,
             ghost looked: seq<(Key, Entry)>, ghost previous: Option<string>)
    requires cache.Valid() && Sized(removed) && removed != [] && Cuts(split)
    requires forall a, b :: cache.hash(a) == cache.hash(b) ==> a == b
    modifies cache`entries, cache`told
    ensures cache.Valid()
    ensures r.Some? ==> Derives(cache.format, rounds, removed) && ResultOf(rounds) == r && fits(r.value)
    ensures |sent| <= |removed| && sent == removed[|removed| - |sent|..] && (size == 0 ==> sent == removed)
    ensures r.Some? && sent != [] ==> rounds != [] && rounds[|rounds| - 1].sources == sent && rounds[|rounds| - 1].split == split
    ensures size > 0 ==>
      NothingLonger(old(cache.entries), cache.hash, model, summaryModel, version, removed, |removed| - |sent|)
    ensures var n := |removed| - |sent|;
      Uses(old(cache.entries), looked, KeyFor(cache.hash, model, summaryModel, version, removed[..n]), n, previous)
    ensures sent == [] ==> previous.Some? && r == if fits(previous.value) then previous else None
    ensures sent != [] ==> r == Rolled(split(cache.format(sent, |removed| - |sent|)), maxCalls, answers, fits)
    ensures cache.entries ==
      if r.None? || sent == [] then looked
      else Stored(looked, KeyFor(cache.hash, model, summaryModel, version, removed), r.value, |removed|, size)
  {
    hide Derives, Framed, AllTold, DistinctKeys, ResultOf, Folds, Strip, NothingLonger, Uses, Others, Newest;
    var hashes := BoundaryHashes(removed, cache.hash);
    var covered, found, before := Lookup(cache, model, summaryModel, version, removed, hashes, size);
    rounds, looked, previous := before, cache.entries, found;
    sent := removed[covered..];
    assert removed[..|removed|] == removed;
    if covered == |removed| {
      return if fits(found.value) then found else None, sent, rounds, looked, previous;
    }
    var chunks := split(cache.format(sent, covered));
    if |chunks| > maxCalls { return None, sent, rounds, looked, previous; }
    var text, ok, calls := Roll(chunks, found, answers);
    if !ok { return None, sent, rounds, looked, previous; }
    ghost var round := Round(covered, sent, split, calls);
    ExtendDerivation(cache.format, rounds, removed, round);
    if !fits(text.value) { return None, sent, rounds, looked, previous; }
    rounds := rounds + [round];
    var boundary := hashes[|removed| - 1];
    cache.Put(Key(model, summaryModel, version, boundary), Entry(text.value, |removed|, boundary), size, removed, rounds);
    return text, sent, rounds, looked, previous;
  }

  lemma UsedIsThere(was: seq<(Key, Entry)>, now: seq<(Key, Entry)>, key: Key, n: nat, text: Option<string>)
    requires n > 0 && Uses(was, now, key, n, text)
    ensures text.Some? && exists e | e in now :: e.0 == key && e.1.text == text.value
  {}

  lemma StoredIsThere(entries: seq<(Key, Entry)>, key: Key, text: string, covered: nat, size: nat)
    requires size > 0
    ensures exists e | e in Stored(entries, key, text, covered, size) :: e.0 == key && e.1.text == text
  {
    var all := Others(entries, key) + [(key, Entry(text, covered, key.boundary))];
    var now := Newest(all, size);
    assert now[|now| - 1] == all[|all| - 1] && now[|now| - 1] in now;
  }

  lemma OneText(entries: seq<(Key, Entry)>, now: seq<(Key, Entry)>, key: Key, n: nat, text: Option<string>, e: (Key, Entry))
    requires DistinctKeys(entries) && e in entries && e.0 == key && n > 0 && Uses(entries, now, key, n, text)
    ensures text == Some(e.1.text)
  {}

  /**
   Asking again: as long as the cache stores anything, a summary that was answered is answered again for
   the same messages, without a call of the summary model, whatever that would answer then.
   */
  method SummarizeAgain(cache: SummaryCache, model: string, summaryModel: string, version: string, removed: seq<Payload>,
                        size: nat, maxCalls: nat, split: Splitter, answers: seq<string>, fits: string -> bool,
                        callsThen: nat, splitThen: Splitter, answersThen: seq<string>)
    returns (first: Option<string>, second: Option<string>, sent: seq<Payload>)
    requires cache.Valid() && Sized(removed) && removed != [] && Cuts(split) && Cuts(splitThen) && size > 0
    requires forall a, b :: cache.hash(a) == cache.hash(b) ==> a == b
    modifies cache`entries, cache`told
    ensures first.Some? ==> second == first && sent == []
  {
    hide Derives, Framed, AllTold, DistinctKeys, ResultOf, Folds, Strip, NothingLonger, Uses, Others, Newest, Stored;
    ghost var key := KeyFor(cache.hash, model, summaryModel, version, removed);
    var before: seq<Payload>;
    ghost var rounds: seq<Round>, looked: seq<(Key, Entry)>, previous: Option<string>;
    first, before, rounds, looked, previous :=
      Summarize(cache, model, summaryModel, version, removed, size, maxCalls, split, answers, fits);
    assert removed[..|removed|] == removed;
    if first.Some? {
      if before == [] {
        UsedIsThere(old(cache.entries), looked, key, |removed|, previous);
      } else {
        StoredIsThere(looked, key, first.value, |removed|, size);
      }
      ghost var e :| e in cache.entries && e.0 == key && e.1.text == first.value;
      ghost var was := cache.entries;
      CacheIsDistinct(cache);
      second, sent, rounds, looked, previous :=
        Summarize(cache, model, summaryModel, version, removed, size, callsThen, splitThen, answersThen, fits);
      LongestIsAll(was, cache.hash, model, summaryModel, version, removed, |removed| - |sent|, e);
      OneText(was, looked, key, |removed|, previous, e);
    } else {
      second, sent := None, [];
    }
  }

  lemma CacheIsDistinct(cache: SummaryCache)
    requires cache.Valid()
    ensures DistinctKeys(cache.entries)
  {}

  lemma LongestIsAll(entries: seq<(Key, Entry)>, hash: seq<Byte> -> string, model: string, summaryModel: string,
                     version: string, removed: seq<Payload>, n: nat, e: (Key, Entry))
    requires NothingLonger(entries, hash, model, summaryModel, version, removed, n) && n <= |removed|
    requires e in entries && e.0 == KeyFor(hash, model, summaryModel, version, removed)
    ensures n == |removed|
  {
    assert removed[..|removed|] == removed;
  }

  lemma DerivesNothing(format: Format)
    ensures Derives(format, [], []) && ResultOf([]) == None
  {}

  lemma ExtendDerivation(format: Format, rounds: seq<Round>, messages: seq<Payload>, round: Round)
    requires round.offset < |messages| && round.sources == messages[round.offset..]
    requires Derives(format, rounds, messages[..round.offset])
    requires Cuts(round.split)
    requires Folds(round.calls, ResultOf(rounds), round.split(format(round.sources, round.offset)))
    ensures Derives(format, rounds + [round], messages)
    ensures round.calls != [] && ResultOf(rounds + [round]) == Outcome(round.calls, ResultOf(rounds))
  {
    assert (rounds + [round])[..|rounds|] == rounds;
    assert round.split(format(round.sources, round.offset)) != [];
  }
}
