/**
 DeepSeek image admission (gateway/deepseek_vision.py): tool results are rendered in the order of
 the calls they answer, by sorting the tool slots of each group of user and tool messages.
 The ids of a message's tool calls, and the id a tool message answers, are functions of the message.
 */
module Vision {
  import opened Wrappers
  import opened Turns
  import Budget

  /** How the fields of a message are read. */
  datatype Fields = Fields(callIds: Message -> seq<string>, callId: Message -> string, images: Message -> nat)

  // ---------------------------------------------------------------- sorting the tool slots

  /** The last position of `callId` among the ids, or zero; an empty id matches nothing. */
  function Rank(ids: seq<string>, callId: string): (r: nat)
    ensures callId != "" && callId in ids ==> r < |ids| && ids[r] == callId && forall i | r < i < |ids| :: ids[i] != callId
    ensures callId == "" || callId !in ids ==> r == 0
  {
    if ids == [] || callId == "" then 0
    else if ids[|ids| - 1] == callId then |ids| - 1
    else Rank(ids[..|ids| - 1], callId)
  }

  function RankOf(f: Fields, ids: seq<string>, m: Message): nat {
    Rank(ids, f.callId(m))
  }

  function Insert(f: Fields, ids: seq<string>, m: Message, ts: seq<Message>): (r: seq<Message>)
    ensures |r| == |ts| + 1
  {
    if ts == [] || RankOf(f, ids, m) <= RankOf(f, ids, ts[0]) then [m] + ts
    else [ts[0]] + Insert(f, ids, m, ts[1..])
  }

  /** The stable sort by rank. */
  function Sort(f: Fields, ids: seq<string>, ts: seq<Message>): (r: seq<Message>)
    ensures |r| == |ts|
  {
    if ts == [] then [] else Insert(f, ids, ts[0], Sort(f, ids, ts[1..]))
  }

  predicate Sorted(f: Fields, ids: seq<string>, ts: seq<Message>) {
    forall i, j | 0 <= i < j < |ts| :: RankOf(f, ids, ts[i]) <= RankOf(f, ids, ts[j])
  }

  /** The messages of one rank. */
  function OfRank(f: Fields, ids: seq<string>, ts: seq<Message>, k: nat): seq<Message> {
    if ts == [] then [] else (if RankOf(f, ids, ts[0]) == k then [ts[0]] else []) + OfRank(f, ids, ts[1..], k)
  }

  lemma {:induction false} InsertKeeps(f: Fields, ids: seq<string>, m: Message, ts: seq<Message>)
    ensures multiset(Insert(f, ids, m, ts)) == multiset(ts) + multiset{m}
  {
    hide RankOf;
    if ts != [] {
      InsertKeeps(f, ids, m, ts[1..]);
      assert ts == [ts[0]] + ts[1..];
    }
  }

  lemma {:induction false} InsertSorted(f: Fields, ids: seq<string>, m: Message, ts: seq<Message>)
    requires Sorted(f, ids, ts)
    ensures Sorted(f, ids, Insert(f, ids, m, ts))
  {
    hide RankOf;
    if ts != [] && RankOf(f, ids, m) > RankOf(f, ids, ts[0]) {
      var rest := Insert(f, ids, m, ts[1..]);
      InsertSorted(f, ids, m, ts[1..]);
      InsertKeeps(f, ids, m, ts[1..]);
      forall j | 0 <= j < |rest| ensures RankOf(f, ids, ts[0]) <= RankOf(f, ids, rest[j]) {
        assert rest[j] in multiset(rest);
        if rest[j] != m {
          assert rest[j] in multiset(ts[1..]);
        }
      }
    }
  }

  /** A message goes in front of those with equal rank. */
  lemma {:induction false} InsertStable(f: Fields, ids: seq<string>, m: Message, ts: seq<Message>, k: nat)
    ensures OfRank(f, ids, Insert(f, ids, m, ts), k) == (if RankOf(f, ids, m) == k then [m] else []) + OfRank(f, ids, ts, k)
  {
    hide RankOf;
    if ts == [] || RankOf(f, ids, m) <= RankOf(f, ids, ts[0]) {
      assert ([m] + ts)[1..] == ts;
    } else {
      var rest := Insert(f, ids, m, ts[1..]);
      InsertStable(f, ids, m, ts[1..], k);
      assert ([ts[0]] + rest)[1..] == rest;
    }
  }

  /** Sorting orders by rank, keeps the messages, and keeps the order of those with equal rank. */
  lemma {:induction false} SortSorts(f: Fields, ids: seq<string>, ts: seq<Message>, k: nat)
    ensures Sorted(f, ids, Sort(f, ids, ts))
    ensures multiset(Sort(f, ids, ts)) == multiset(ts)
    ensures OfRank(f, ids, Sort(f, ids, ts), k) == OfRank(f, ids, ts, k)
  {
    hide RankOf, Insert;
    if ts != [] {
      var rest := Sort(f, ids, ts[1..]);
      SortSorts(f, ids, ts[1..], k);
      InsertKeeps(f, ids, ts[0], rest);
      InsertSorted(f, ids, ts[0], rest);
      InsertStable(f, ids, ts[0], rest, k);
      assert ts == [ts[0]] + ts[1..];
    }
  }

  lemma {:induction false} SortedStays(f: Fields, ids: seq<string>, ts: seq<Message>)
    requires Sorted(f, ids, ts)
    ensures Sort(f, ids, ts) == ts
  {
    hide Rank, RankOf;
    if ts != [] {
      assert Sorted(f, ids, ts[1..]);
      SortedStays(f, ids, ts[1..]);
      InsertFirst(f, ids, ts[0], ts[1..]);
      assert ts == [ts[0]] + ts[1..];
    }
  }

  lemma InsertFirst(f: Fields, ids: seq<string>, m: Message, ts: seq<Message>)
    requires ts != [] ==> RankOf(f, ids, m) <= RankOf(f, ids, ts[0])
    ensures Insert(f, ids, m, ts) == [m] + ts
  {}

  // ---------------------------------------------------------------- groups

  predicate Grouped(m: Message) {
    m.role.User? || m.role.Tool?
  }

  function Tools(g: seq<Message>): (r: seq<Message>)
    ensures forall m | m in r :: m.role.Tool?
  {
    if g == [] then [] else (if g[0].role.Tool? then [g[0]] else []) + Tools(g[1..])
  }

  /** The group with its tool slots filled from `ts`, one after the other. */
  function Fill(g: seq<Message>, ts: seq<Message>): (r: seq<Message>)
    ensures |r| == |g|
  {
    if g == [] then []
    else if g[0].role.Tool? && ts != [] then [ts[0]] + Fill(g[1..], ts[1..])
    else [g[0]] + Fill(g[1..], ts)
  }

  predicate AllTools(ts: seq<Message>) {
    forall i | 0 <= i < |ts| :: ts[i].role.Tool?
  }

  lemma {:induction false} FillSlots(g: seq<Message>, ts: seq<Message>)
    requires AllTools(ts) && |ts| == |Tools(g)|
    ensures Tools(Fill(g, ts)) == ts
    ensures forall i | 0 <= i < |g| :: if g[i].role.Tool? then Fill(g, ts)[i].role.Tool? else Fill(g, ts)[i] == g[i]
  {
    if g != [] {
      if g[0].role.Tool? {
        FillSlots(g[1..], ts[1..]);
        var rest := Fill(g[1..], ts[1..]);
        assert ts == [ts[0]] + ts[1..] && ([ts[0]] + rest)[1..] == rest;
      } else {
        FillSlots(g[1..], ts);
        var rest := Fill(g[1..], ts);
        assert ([g[0]] + rest)[1..] == rest;
      }
    }
  }

  lemma {:induction false} FillKeeps(g: seq<Message>, ts: seq<Message>)
    requires |ts| == |Tools(g)|
    ensures multiset(Fill(g, ts)) + multiset(Tools(g)) == multiset(g) + multiset(ts)
  {
    hide Fill;
    assert g == [] ==> Fill(g, ts) == [] && Tools(g) == [];
    if g != [] {
      var m, h := g[0], g[1..];
      assert g == [m] + h;
      if m.role.Tool? {
        var n, us := ts[0], ts[1..];
        assert ts == [n] + us;
        FillKeeps(h, us);
        FillTool(m, h, n, us);
        SwapOne(multiset(Fill(h, us)), multiset(Tools(h)), multiset(h), multiset(us), m, n);
      } else {
        FillKeeps(h, ts);
        FillOther(m, h, ts);
        AddOne(multiset(Fill(h, ts)), multiset(Tools(h)), multiset(h), multiset(ts), m);
      }
    }
  }

  lemma FillTool(m: Message, h: seq<Message>, n: Message, us: seq<Message>)
    requires m.role.Tool?
    ensures multiset(Fill([m] + h, [n] + us)) == multiset{n} + multiset(Fill(h, us))
    ensures multiset(Tools([m] + h)) == multiset{m} + multiset(Tools(h))
  {
    assert ([m] + h)[1..] == h && ([n] + us)[1..] == us;
  }

  lemma FillOther(m: Message, h: seq<Message>, ts: seq<Message>)
    requires !m.role.Tool?
    ensures multiset(Fill([m] + h, ts)) == multiset{m} + multiset(Fill(h, ts))
    ensures multiset(Tools([m] + h)) == multiset(Tools(h))
  {
    assert ([m] + h)[1..] == h && [] + Tools(h) == Tools(h);
  }

  lemma SwapOne(a: multiset<Message>, b: multiset<Message>, c: multiset<Message>, d: multiset<Message>, m: Message, n: Message)
    requires a + b == c + d
    ensures (multiset{n} + a) + (multiset{m} + b) == (multiset{m} + c) + (multiset{n} + d)
  {
    var left, right := (multiset{n} + a) + (multiset{m} + b), (multiset{m} + c) + (multiset{n} + d);
    forall x: Message ensures left[x] == right[x] { assert (a + b)[x] == (c + d)[x]; }
  }

  lemma AddOne(a: multiset<Message>, b: multiset<Message>, c: multiset<Message>, d: multiset<Message>, m: Message)
    requires a + b == c + d
    ensures (multiset{m} + a) + b == (multiset{m} + c) + d
  {
    var left, right := (multiset{m} + a) + b, (multiset{m} + c) + d;
    forall x: Message ensures left[x] == right[x] { assert (a + b)[x] == (c + d)[x]; }
  }

  lemma {:induction false} FillAgain(g: seq<Message>, h: seq<Message>, ts: seq<Message>)
    requires |h| == |g| && |ts| == |Tools(g)|
    requires forall i | 0 <= i < |g| :: if g[i].role.Tool? then h[i].role.Tool? else h[i] == g[i]
    ensures Fill(h, ts) == Fill(g, ts)
  {
    if g != [] {
      forall i | 0 <= i < |g| - 1 ensures if g[1..][i].role.Tool? then h[1..][i].role.Tool? else h[1..][i] == g[1..][i] {
        assert g[1..][i] == g[i + 1] && h[1..][i] == h[i + 1];
      }
      if g[0].role.Tool? { FillAgain(g[1..], h[1..], ts[1..]); } else { FillAgain(g[1..], h[1..], ts); }
    }
  }

  /** A group in canonical order. */
  function Arranged(f: Fields, ids: seq<string>, g: seq<Message>): (r: seq<Message>)
    ensures |r| == |g|
  {
    Fill(g, Sort(f, ids, Tools(g)))
  }

  /** Only tool slots change, the messages stay the same, and arranging again changes nothing. */
  lemma ArrangedIs(f: Fields, ids: seq<string>, g: seq<Message>)
    ensures var r := Arranged(f, ids, g);
      && (forall i | 0 <= i < |g| :: if g[i].role.Tool? then r[i].role.Tool? else r[i] == g[i])
      && multiset(r) == multiset(g)
      && Sorted(f, ids, Tools(r))
      && Arranged(f, ids, r) == r
  {
    hide Sort, Fill, Tools, RankOf;
    var ts := Tools(g);
    var sorted := Sort(f, ids, ts);
    SortSorts(f, ids, ts, 0);
    SameTools(ts, sorted);
    FillSlots(g, sorted);
    FillKeeps(g, sorted);
    assert multiset(Fill(g, sorted)) == multiset(Fill(g, sorted)) + multiset(ts) - multiset(ts);
    SortedStays(f, ids, sorted);
    FillAgain(g, Fill(g, sorted), sorted);
  }

  lemma SameTools(ts: seq<Message>, us: seq<Message>)
    requires multiset(us) == multiset(ts) && forall m | m in ts :: m.role.Tool?
    ensures AllTools(us)
  {
    forall i | 0 <= i < |us| ensures us[i].role.Tool? { assert us[i] in multiset(us); }
  }

  // ---------------------------------------------------------------- conversations

  function GroupEnd(c: Conversation, i: nat): (r: nat)
    requires i <= |c|
    ensures i <= r <= |c| && (forall k | i <= k < r :: Grouped(c[k])) && (r < |c| ==> !Grouped(c[r]))
    decreases |c| - i
  {
    if i < |c| && Grouped(c[i]) then GroupEnd(c, i + 1) else i
  }

  /** The ids that later tool results answer. */
  function IdsAfter(f: Fields, ids: seq<string>, m: Message): seq<string> {
    if m.role.Assistant? && f.callIds(m) != [] then f.callIds(m) else ids
  }

  /** The canonical order from message `i` on. */
  function Canonical(f: Fields, c: Conversation, i: nat, ids: seq<string>): (r: Conversation)
    requires i <= |c|
    ensures |r| == |c| - i
    decreases |c| - i
  {
    if i == |c| then []
    else if !Grouped(c[i]) then [c[i]] + Canonical(f, c, i + 1, IdsAfter(f, ids, c[i]))
    else Arranged(f, ids, c[i..GroupEnd(c, i)]) + Canonical(f, c, GroupEnd(c, i), ids)
  }

  /** The inner loop: where the group that starts at `i` ends. */
  method FindGroupEnd(c: Conversation, i: nat) returns (end: nat)
    requires i <= |c|
    ensures end == GroupEnd(c, i)
  {
    end := i;
    while end < |c| && Grouped(c[end])
      invariant i <= end <= |c| && GroupEnd(c, i) == GroupEnd(c, end)
    {
      end := end + 1;
    }
  }

  /** `canonicalize_conversation`. */
  method Canonicalize(f: Fields, c: Conversation) returns (r: Conversation)
    ensures r == Canonical(f, c, 0, [])
  {
    hide Sort, Fill, Tools, GroupEnd;
    r := [];
    var ids, i := [], 0;
    ghost var whole := Canonical(f, c, 0, []);
    while i < |c|
      invariant i <= |c| && r + Canonical(f, c, i, ids) == whole
      decreases |c| - i
    {
      var m := c[i];
      ids := IdsAfter(f, ids, m);
      if !Grouped(m) {
        assert r + ([m] + Canonical(f, c, i + 1, ids)) == r + [m] + Canonical(f, c, i + 1, ids);
        r := r + [m];
        i := i + 1;
      } else {
        var end := FindGroupEnd(c, i);
        var arranged := FillIn(c[i..end], Sort(f, ids, Tools(c[i..end])));
        assert r + (arranged + Canonical(f, c, end, ids)) == r + arranged + Canonical(f, c, end, ids);
        r := r + arranged;
        i := end;
      }
    }
  }

  lemma FillNext(g: seq<Message>, ts: seq<Message>)
    requires g != []
    ensures |Tools(g)| == (if g[0].role.Tool? then 1 else 0) + |Tools(g[1..])|
    ensures Fill(g, ts) == if g[0].role.Tool? && ts != [] then [ts[0]] + Fill(g[1..], ts[1..]) else [g[0]] + Fill(g[1..], ts)
  {}

  /** The comprehension that takes a tool message from the sorted ones for each tool slot. */
  method FillIn(g: seq<Message>, ts: seq<Message>) returns (r: seq<Message>)
    requires |ts| == |Tools(g)|
    ensures r == Fill(g, ts)
  {
    hide Fill, Tools;
    r := [];
    var next := 0;
    assert g[0..] == g && ts[0..] == ts;
    for i := 0 to |g|
      invariant next <= |ts| && |Tools(g[i..])| == |ts| - next
      invariant r + Fill(g[i..], ts[next..]) == Fill(g, ts)
    {
      FillNext(g[i..], ts[next..]);
      assert g[i..][1..] == g[i + 1..];
      if g[i].role.Tool? {
        assert ts[next..][1..] == ts[next + 1..];
        assert r + ([ts[next]] + Fill(g[i + 1..], ts[next + 1..])) == r + [ts[next]] + Fill(g[i + 1..], ts[next + 1..]);
        r := r + [ts[next]];
        next := next + 1;
      } else {
        assert r + ([g[i]] + Fill(g[i + 1..], ts[next..])) == r + [g[i]] + Fill(g[i + 1..], ts[next..]);
        r := r + [g[i]];
      }
    }
  }

  /** `d` differs from `c` in its tool slots only. */
  predicate SameSlots(c: Conversation, d: Conversation) {
    |d| == |c| && forall i | 0 <= i < |c| :: if c[i].role.Tool? then d[i].role.Tool? else d[i] == c[i]
  }

  lemma {:induction false} CanonicalSlots(f: Fields, c: Conversation, i: nat, ids: seq<string>)
    requires i <= |c|
    ensures SameSlots(c[i..], Canonical(f, c, i, ids))
    decreases |c| - i
  {
    hide Sort, Fill, Tools, Arranged, GroupEnd, IdsAfter;
    if i < |c| {
      if !Grouped(c[i]) {
        CanonicalSlots(f, c, i + 1, IdsAfter(f, ids, c[i]));
        assert c[i..] == [c[i]] + c[i + 1..];
      } else {
        var e := GroupEnd(c, i);
        ArrangedIs(f, ids, c[i..e]);
        CanonicalSlots(f, c, e, ids);
        SlotsJoin(c[i..e], Arranged(f, ids, c[i..e]), c[e..], Canonical(f, c, e, ids));
        assert c[i..] == c[i..e] + c[e..];
      }
    }
  }

  lemma SlotsJoin(a: Conversation, b: Conversation, c: Conversation, d: Conversation)
    requires SameSlots(a, b) && SameSlots(c, d)
    ensures SameSlots(a + c, b + d)
  {}

  lemma {:induction false} CanonicalKeeps(f: Fields, c: Conversation, i: nat, ids: seq<string>)
    requires i <= |c|
    ensures multiset(Canonical(f, c, i, ids)) == multiset(c[i..])
    decreases |c| - i
  {
    hide Sort, Fill, Tools, Arranged, GroupEnd, IdsAfter;
    if i < |c| {
      if !Grouped(c[i]) {
        CanonicalKeeps(f, c, i + 1, IdsAfter(f, ids, c[i]));
        assert c[i..] == [c[i]] + c[i + 1..];
      } else {
        var e := GroupEnd(c, i);
        ArrangedIs(f, ids, c[i..e]);
        CanonicalKeeps(f, c, e, ids);
        assert c[i..] == c[i..e] + c[e..];
      }
    }
  }

  lemma {:induction false} GroupEndSame(c: Conversation, d: Conversation, i: nat)
    requires SameSlots(c, d) && i <= |c|
    ensures GroupEnd(d, i) == GroupEnd(c, i)
    decreases |c| - i
  {
    if i < |c| && Grouped(c[i]) {
      assert Grouped(d[i]);
      GroupEndSame(c, d, i + 1);
    }
  }

  /** From message `i` on, `d` is the canonical form of `c`. */
  lemma {:induction false} CanonicalTwice(f: Fields, c: Conversation, d: Conversation, i: nat, ids: seq<string>)
    requires SameSlots(c, d) && i <= |c| && d[i..] == Canonical(f, c, i, ids)
    ensures Canonical(f, d, i, ids) == d[i..]
    decreases |c| - i
  {
    hide Sort, Fill, Tools, Arranged;
    if i < |c| {
      assert d[i..][0] == d[i];
      if !Grouped(c[i]) {
        assert d[i..][1..] == d[i + 1..];
        assert ([c[i]] + Canonical(f, c, i + 1, IdsAfter(f, ids, c[i])))[1..] == Canonical(f, c, i + 1, IdsAfter(f, ids, c[i]));
        CanonicalTwice(f, c, d, i + 1, IdsAfter(f, ids, c[i]));
        assert d[i..] == [d[i]] + d[i + 1..];
      } else {
        var e := GroupEnd(c, i);
        GroupEndSame(c, d, i);
        var g, rest := Arranged(f, ids, c[i..e]), Canonical(f, c, e, ids);
        assert d[i..e] == d[i..][..e - i] == (g + rest)[..e - i] == g;
        assert d[e..] == d[i..][e - i..] == (g + rest)[e - i..] == rest;
        ArrangedIs(f, ids, c[i..e]);
        CanonicalTwice(f, c, d, e, ids);
        assert d[i..] == d[i..e] + d[e..];
      }
    }
  }

  /** Canonical order moves tool results among tool slots only, keeps every message, and is canonical itself. */
  lemma CanonicalIsStable(f: Fields, c: Conversation)
    ensures var d := Canonical(f, c, 0, []);
      SameSlots(c, d) && multiset(d) == multiset(c) && Canonical(f, d, 0, []) == d
  {
    var d := Canonical(f, c, 0, []);
    CanonicalSlots(f, c, 0, []);
    CanonicalKeeps(f, c, 0, []);
    assert c[0..] == c && d[0..] == d;
    CanonicalTwice(f, c, d, 0, []);
  }

  // ---------------------------------------------------------------- image tokens

  /** What a tokenizer makes of a conversation rendered as it stands: its tokens, and its image tokens among them. */
  datatype Renderer = Renderer(tokens: Conversation -> nat, imageTokens: Conversation -> nat, maxImageTokens: nat)

  function Images(f: Fields, c: Conversation): nat {
    if c == [] then 0 else f.images(c[0]) + Images(f, c[1..])
  }

  /** The tokenizer adapter renders the canonical order. */
  function PromptTokens(f: Fields, r: Renderer, c: Conversation): nat {
    r.tokens(Canonical(f, c, 0, []))
  }

  /** `additional_image_tokens`: `None` when the prompt's image tokens do not match the images. */
  function ExtraTokens(f: Fields, r: Renderer, c: Conversation): Option<nat> {
    if Images(f, c) == 0 then Some(0)
    else
      var counted := r.imageTokens(Canonical(f, c, 0, []));
      if counted != Images(f, c) then None
      else
        var bound := Images(f, c) * r.maxImageTokens;
        Some(if bound < counted then 0 else bound - counted)
  }

  lemma {:induction false} ImagesAppend(f: Fields, a: Conversation, b: Conversation)
    ensures Images(f, a + b) == Images(f, a) + Images(f, b)
  {
    if a == [] {
      assert a + b == b;
    } else {
      assert (a + b)[1..] == a[1..] + b;
      ImagesAppend(f, a[1..], b);
    }
  }

  lemma ImagesWithout(f: Fields, c: Conversation, i: nat)
    requires i < |c|
    ensures Images(f, c) == f.images(c[i]) + Images(f, c[..i] + c[i + 1..])
    ensures multiset(c[..i] + c[i + 1..]) == multiset(c) - multiset{c[i]}
  {
    var a, b := c[..i], c[i + 1..];
    assert c == a + ([c[i]] + b) && ([c[i]] + b)[1..] == b;
    ImagesAppend(f, a, [c[i]] + b);
    ImagesAppend(f, a, b);
  }

  lemma PickSame(c: Conversation, d: Conversation) returns (j: nat)
    requires multiset(c) == multiset(d) && c != []
    ensures j < |d| && d[j] == c[0]
  {
    assert c[0] in multiset(d);
    j :| 0 <= j < |d| && d[j] == c[0];
  }

  lemma NothingPicked(f: Fields, c: Conversation, d: Conversation)
    requires multiset(c) == multiset(d) && c == []
    ensures Images(f, c) == Images(f, d)
  {
    assert |multiset(d)| == |d|;
  }

  /** The number of images depends on which messages there are, not on their order. */
  lemma {:induction false} ImagesPermute(f: Fields, c: Conversation, d: Conversation)
    requires multiset(c) == multiset(d)
    ensures Images(f, c) == Images(f, d)
    decreases |c|
  {
    hide *;
    if c == [] {
      NothingPicked(f, c, d);
    } else {
      var j := PickSame(c, d);
      ImagesWithout(f, c, 0);
      ImagesWithout(f, d, j);
      ImagesPermute(f, c[..0] + c[1..], d[..j] + d[j + 1..]);
    }
  }

  /** What was measured for a conversation holds for its canonical form. */
  lemma MeasuresAgree(f: Fields, r: Renderer, c: Conversation)
    ensures var d := Canonical(f, c, 0, []);
      && PromptTokens(f, r, d) == PromptTokens(f, r, c)
      && ExtraTokens(f, r, d) == ExtraTokens(f, r, c)
  {
    hide Canonical, Images, SameSlots;
    CanonicalIsStable(f, c);
    ImagesPermute(f, c, Canonical(f, c, 0, []));
  }

  lemma Surplus(n: nat, most: nat)
    ensures if most == 0 then n * most == 0 else n * most >= n
    ensures n == 0 ==> n * (if most == 0 then 1 else most) == 0
    ensures n * 1 == n
  {
    if most > 0 { assert n * most == n + n * (most - 1) && n * (most - 1) >= 0; }
  }

  /** The tokens still to come raise each image from its one token in the prompt to the most it can take. */
  lemma ExtraTokensExactly(f: Fields, r: Renderer, c: Conversation, extra: nat)
    ensures ExtraTokens(f, r, c) == Some(extra) <==>
      && (Images(f, c) > 0 ==> r.imageTokens(Canonical(f, c, 0, [])) == Images(f, c))
      && Images(f, c) + extra == Images(f, c) * (if r.maxImageTokens == 0 then 1 else r.maxImageTokens)
  {
    Surplus(Images(f, c), r.maxImageTokens);
    hide Images, Canonical;
  }

  function DeepSeekMeasure(f: Fields, r: Renderer): Budget.Measure {
    Budget.Measure(c => PromptTokens(f, r, c), c => ExtraTokens(f, r, c))
  }

  /** So the budget's guarantees hold for DeepSeek images with the canonical order put in between. */
  lemma DeepSeekAgrees(f: Fields, r: Renderer)
    ensures Budget.Agrees(DeepSeekMeasure(f, r), c => Canonical(f, c, 0, []))
  {
    var m := DeepSeekMeasure(f, r);
    forall c: Conversation
      ensures m.tokens(Canonical(f, c, 0, [])) == m.tokens(c) && m.media(Canonical(f, c, 0, [])) == m.media(c)
    {
      MeasuresAgree(f, r, c);
    }
  }
}
