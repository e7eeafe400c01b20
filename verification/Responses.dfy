/**
 The Responses event stream (gateway/responses_stream.py): what the gateway emits for a backend
 stream, and what a client that replays the events makes of it.
 */
module Responses {
  import opened Wrappers

  datatype Status = InProgress | Completed | Incomplete

  /** An output item; a message has no content part until one is added. */
  datatype Item =
    | Message(id: string, status: Status, content: Option<string>)
    | FunctionCall(id: string, status: Status, callId: string, name: string, arguments: string)

  datatype Snapshot = Snapshot(output: seq<Item>, usage: Option<nat>)

  /** The events, without their sequence numbers. */
  datatype Event =
    | Created(snapshot: Snapshot)
    | Started(snapshot: Snapshot)
    | ItemAdded(index: nat, item: Item)
    | PartAdded(index: nat, itemId: string)
    | TextDelta(index: nat, itemId: string, delta: string)
    | ArgumentsDelta(index: nat, itemId: string, delta: string)
    | TextDone(index: nat, itemId: string, text: string)
    | PartDone(index: nat, itemId: string, text: string)
    | ArgumentsDone(index: nat, itemId: string, name: string, arguments: string)
    | ItemDone(index: nat, item: Item)
    | ResponseDone(status: Status, snapshot: Snapshot)
    | ErrorEvent
    | Failed(snapshot: Snapshot)

  /** What the backend delivers: a piece of a tool call, and one event. */
  datatype CallDelta = CallDelta(index: nat, id: string, name: string, arguments: string)

  datatype Upstream = Upstream(usage: Option<nat>, finish: Option<string>, text: string, calls: seq<CallDelta>)

  // ---------------------------------------------------------------- the client

  /** A client: how far the life cycle has come, and the items put together from additions and deltas. */
  datatype Phase = Fresh | Opened | Streaming | Broken | Closed

  /** How much of an item has been reported done: its text, or all there is in it. */
  datatype Told = Nothing | ToldText(index: nat) | ToldAll(index: nat)

  datatype Client = Client(phase: Phase, items: seq<Item>, told: Told)

  function WithStatus(items: seq<Item>, status: Status): (r: seq<Item>)
    ensures |r| == |items| && forall i | 0 <= i < |r| :: r[i] == items[i].(status := status)
  {
    seq(|items|, i requires 0 <= i < |items| => items[i].(status := status))
  }

  /** The item that an event of an open stream refers to, with so much reported done before. */
  predicate Refers(c: Client, index: nat, id: string, told: Told) {
    c.phase.Streaming? && index < |c.items| && c.items[index].id == id && c.told == told
  }

  /**
   The client after one event, or `None` if the event is out of place: an item that is added twice
   or not in order, a delta before its item or part, or after it is done, a done payload that is
   not what the deltas add up to or that comes twice, an item done before its content, or a snapshot
   that is not what the events have built.
   */
  function Apply(c: Client, e: Event): Option<Client> {
    match e
    case Created(s) => if c.phase.Fresh? && s.output == [] then Some(c.(phase := Opened)) else None
    case Started(s) => if c.phase.Opened? && s.output == [] then Some(c.(phase := Streaming)) else None
    case ItemAdded(i, item) =>
      if c.phase.Streaming? && c.told.Nothing? && i == |c.items| && item.status.InProgress? && Blank(item)
      then Some(c.(items := c.items + [item])) else None
    case PartAdded(i, id) =>
      if Refers(c, i, id, Nothing) && c.items[i].Message? && c.items[i].content.None?
      then Some(Put(c, i, c.items[i].(content := Some("")))) else None
    case TextDelta(i, id, delta) =>
      if Refers(c, i, id, Nothing) && c.items[i].Message? && c.items[i].content.Some? && c.items[i].status.InProgress?
      then Some(Put(c, i, c.items[i].(content := Some(c.items[i].content.value + delta)))) else None
    case ArgumentsDelta(i, id, delta) =>
      if Refers(c, i, id, Nothing) && c.items[i].FunctionCall? && c.items[i].status.InProgress?
      then Some(Put(c, i, c.items[i].(arguments := c.items[i].arguments + delta))) else None
    case TextDone(i, id, text) =>
      if Refers(c, i, id, Nothing) && c.items[i].Message? && c.items[i].content == Some(text)
      then Some(c.(told := ToldText(i))) else None
    case PartDone(i, id, text) =>
      if Refers(c, i, id, ToldText(i)) && c.items[i].Message? && c.items[i].content == Some(text)
      then Some(c.(told := ToldAll(i))) else None
    case ArgumentsDone(i, id, name, arguments) =>
      if Refers(c, i, id, Nothing) && c.items[i].FunctionCall?
        && c.items[i].name == name && c.items[i].arguments == arguments
      then Some(c.(told := ToldAll(i))) else None
    case ItemDone(i, item) =>
      if Refers(c, i, item.id, ToldAll(i)) && c.items[i].status.InProgress? && !item.status.InProgress?
        && item == c.items[i].(status := item.status)
      then Some(Put(c, i, item).(told := Nothing)) else None
    case ResponseDone(status, s) =>
      if c.phase.Streaming? && c.told.Nothing? && !status.InProgress?
        && s.output == c.items && WithStatus(c.items, status) == c.items
      then Some(c.(phase := Closed)) else None
    case ErrorEvent => if c.phase.Streaming? then Some(c.(phase := Broken)) else None
    case Failed(s) => if c.phase.Broken? && s.output == WithStatus(c.items, Incomplete) then Some(c.(phase := Closed)) else None
  }

  predicate Blank(item: Item) {
    match item
    case Message(_, _, content) => content.None?
    case FunctionCall(_, _, _, _, arguments) => arguments == ""
  }

  function Put(c: Client, i: nat, item: Item): Client
    requires i < |c.items|
  {
    c.(items := c.items[i := item])
  }

  /** The client after a whole stream. */
  function Replay(events: seq<(nat, Event)>): Option<Client>
    decreases |events|
  {
    if events == [] then Some(Client(Fresh, [], Nothing))
    else match Replay(events[..|events| - 1])
         case None => None
         case Some(c) => Apply(c, events[|events| - 1].1)
  }

  predicate Numbered(events: seq<(nat, Event)>) {
    forall i | 0 <= i < |events| :: events[i].0 == i
  }

  predicate Terminal(e: Event) {
    e.ResponseDone? || e.Failed?
  }

  lemma {:induction false} NoneAfterNone(events: seq<(nat, Event)>, n: nat)
    requires n <= |events| && Replay(events).Some?
    ensures Replay(events[..n]).Some?
    decreases |events| - n
  {
    if n == |events| {
      assert events[..n] == events;
    } else {
      NoneAfterNone(events, n + 1);
      assert events[..n + 1][..n] == events[..n];
    }
  }

  lemma OneEvent(events: seq<(nat, Event)>, i: nat)
    requires i < |events| && Replay(events).Some?
    ensures Replay(events[..i]).Some? && Replay(events[..i + 1]).Some?
    ensures Replay(events[..i + 1]) == Apply(Replay(events[..i]).value, events[i].1)
  {
    hide Apply;
    NoneAfterNone(events, i);
    NoneAfterNone(events, i + 1);
    assert events[..i + 1][..i] == events[..i] && events[..i + 1][i] == events[i];
  }

  lemma TerminalCloses(c: Client, e: Event)
    requires Apply(c, e).Some?
    ensures !c.phase.Closed? && (Apply(c, e).value.phase.Closed? <==> Terminal(e))
  {}

  /** A stream that a client can replay to its end has exactly one terminal event, and that is the last. */
  lemma OneTerminal(events: seq<(nat, Event)>)
    requires Replay(events).Some? && Replay(events).value.phase.Closed?
    ensures events != [] && forall i | 0 <= i < |events| :: Terminal(events[i].1) <==> i == |events| - 1
  {
    hide Apply, Terminal;
    forall i | 0 <= i < |events| ensures Terminal(events[i].1) <==> i == |events| - 1 {
      hide *;
      OneEvent(events, i);
      TerminalCloses(Replay(events[..i]).value, events[i].1);
      if i == |events| - 1 {
        assert events[..i + 1] == events;
      } else {
        OneEvent(events, i + 1);
        TerminalCloses(Replay(events[..i + 1]).value, events[i + 1].1);
      }
    }
  }

  // ---------------------------------------------------------------- the backend's side

  function Texts(us: seq<Upstream>): string
    decreases |us|
  {
    if us == [] then "" else Texts(us[..|us| - 1]) + us[|us| - 1].text
  }

  /** What the pieces of the call with backend index `b` add up to. */
  function Pieces(calls: seq<CallDelta>, b: nat): string
    decreases |calls|
  {
    if calls == [] then ""
    else Pieces(calls[..|calls| - 1], b) + if calls[|calls| - 1].index == b then calls[|calls| - 1].arguments else ""
  }

  function Arguments(us: seq<Upstream>, b: nat): string
    decreases |us|
  {
    if us == [] then "" else Arguments(us[..|us| - 1], b) + Pieces(us[|us| - 1].calls, b)
  }

  /** The arguments that the item of backend index `b` holds; none if there is no such item. */
  function Held(output: seq<Item>, toolIndices: map<nat, nat>, b: nat): string {
    if b in toolIndices && IsCall(output, toolIndices[b]) then output[toolIndices[b]].arguments else ""
  }

  // ---------------------------------------------------------------- which item is whose

  /** What an event delivers: text for the message, or a piece of a call. */
  datatype Delivery = TextOf | CallOf(call: CallDelta)

  function CallsOf(calls: seq<CallDelta>): (r: seq<Delivery>)
    ensures |r| == |calls| && forall i | 0 <= i < |r| :: r[i] == CallOf(calls[i])
  {
    seq(|calls|, i requires 0 <= i < |calls| => CallOf(calls[i]))
  }

  function TextIn(u: Upstream): seq<Delivery> {
    if u.text == "" then [] else [TextOf]
  }

  function Deliveries(us: seq<Upstream>): seq<Delivery>
    decreases |us|
  {
    if us == [] then [] else Deliveries(us[..|us| - 1]) + (TextIn(us[|us| - 1]) + CallsOf(us[|us| - 1].calls))
  }

  predicate SameItem(a: Delivery, b: Delivery) {
    a.TextOf? == b.TextOf? && (a.CallOf? && b.CallOf? ==> a.call.index == b.call.index)
  }

  /** Delivery `i` is the first for its item. */
  predicate Opens(ds: seq<Delivery>, i: nat)
    requires i < |ds|
  {
    forall k | 0 <= k < i :: !SameItem(ds[k], ds[i])
  }

  /** The deliveries that are the first for their items, in order. */
  function Openers(ds: seq<Delivery>): seq<Delivery>
    decreases |ds|
  {
    if ds == [] then [] else
      var n := |ds| - 1;
      Openers(ds[..n]) + if Opens(ds, n) then [ds[n]] else []
  }

  predicate Named(d: Delivery) {
    d.CallOf? ==> d.call.id != "" && d.call.name != ""
  }

  /** The first piece of every call brings an id and a name. */
  ghost predicate AllNamed(ds: seq<Delivery>) {
    forall i | 0 <= i < |ds| && Opens(ds, i) :: Named(ds[i])
  }

  /** Item `i` is the one that `d` has opened. */
  predicate OpenedBy(d: Delivery, output: seq<Item>, toolIndices: map<nat, nat>, messageIndex: Option<nat>, i: nat) {
    match d
    case TextOf => messageIndex == Some(i)
    case CallOf(c) =>
      && c.index in toolIndices && toolIndices[c.index] == i
      && IsCall(output, i) && output[i].callId == c.id && output[i].name == c.name
  }

  /** The items are those that the openers have opened, one each and in order; the indices lead to them. */
  ghost predicate Mirrors(openers: seq<Delivery>, output: seq<Item>, toolIndices: map<nat, nat>, messageIndex: Option<nat>) {
    && |output| == |openers|
    && (forall i | 0 <= i < |openers| :: OpenedBy(openers[i], output, toolIndices, messageIndex, i))
    && (messageIndex.Some? ==> messageIndex.value < |openers| && openers[messageIndex.value].TextOf?)
    && (forall b | b in toolIndices ::
          toolIndices[b] < |openers| && openers[toolIndices[b]].CallOf? && openers[toolIndices[b]].call.index == b)
  }

  lemma {:induction false} OpenerOccurs(ds: seq<Delivery>, o: Delivery)
    requires o in Openers(ds)
    ensures o in ds
    decreases |ds|
  {
    var n := |ds| - 1;
    if o in Openers(ds[..n]) { OpenerOccurs(ds[..n], o); }
  }

  lemma SameAs(a: Delivery, b: Delivery, c: Delivery)
    requires SameItem(a, b) && SameItem(b, c)
    ensures SameItem(a, c) && SameItem(b, a)
  {}

  /** Each delivery has an opener of its item. */
  lemma {:induction false} OpenerFor(ds: seq<Delivery>, k: nat) returns (o: Delivery)
    requires k < |ds|
    ensures o in Openers(ds) && SameItem(o, ds[k])
    decreases |ds|, k
  {
    var n := |ds| - 1;
    if k < n {
      o := OpenerFor(ds[..n], k);
    } else if Opens(ds, n) {
      o := ds[n];
    } else {
      var j :| 0 <= j < n && SameItem(ds[j], ds[n]);
      o := OpenerFor(ds, j);
      SameAs(o, ds[j], ds[n]);
    }
  }

  lemma OpenersCover(ds: seq<Delivery>, d: Delivery)
    ensures (exists o | o in Openers(ds) :: SameItem(o, d)) <==> exists k | 0 <= k < |ds| :: SameItem(ds[k], d)
  {
    hide Openers, SameItem;
    if exists o | o in Openers(ds) :: SameItem(o, d) {
      var o :| o in Openers(ds) && SameItem(o, d);
      OpenerOccurs(ds, o);
    }
    if exists k | 0 <= k < |ds| :: SameItem(ds[k], d) {
      var k :| 0 <= k < |ds| && SameItem(ds[k], d);
      var o := OpenerFor(ds, k);
      SameAs(o, ds[k], d);
    }
  }

  /** One more delivery opens an item, or is for one that is there. */
  lemma OneMore(ds: seq<Delivery>, d: Delivery)
    ensures Openers(ds + [d]) == Openers(ds) + if exists o | o in Openers(ds) :: SameItem(o, d) then [] else [d]
    ensures AllNamed(ds + [d]) <==> AllNamed(ds) && ((exists o | o in Openers(ds) :: SameItem(o, d)) || Named(d))
  {
    var all := ds + [d];
    assert all[..|ds|] == ds && all[|ds|] == d;
    OpenersCover(ds, d);
    assert forall i | 0 <= i < |ds| :: all[i] == ds[i] && (Opens(all, i) <==> Opens(ds, i));
    hide Named;
  }

  /** The same call, if it is one. */
  predicate SameCall(a: Item, b: Item) {
    a.FunctionCall? == b.FunctionCall? && (a.FunctionCall? ==> a.callId == b.callId && a.name == b.name)
  }

  /** `now` holds the items of `was`, perhaps grown, and `more` new ones. */
  predicate Grown(was: seq<Item>, now: seq<Item>, more: nat) {
    |now| == |was| + more && forall i | 0 <= i < |was| :: SameCall(was[i], now[i])
  }

  /** A call's item, as its first piece has named it. */
  predicate NamedCall(output: seq<Item>, i: nat, c: CallDelta) {
    IsCall(output, i) && output[i].callId == c.id && output[i].name == c.name
  }

  lemma MirrorSame(openers: seq<Delivery>, was: seq<Item>, now: seq<Item>, toolIndices: map<nat, nat>, messageIndex: Option<nat>)
    requires Mirrors(openers, was, toolIndices, messageIndex) && Grown(was, now, 0)
    ensures Mirrors(openers, now, toolIndices, messageIndex)
  {
    forall i | 0 <= i < |openers| ensures OpenedBy(openers[i], now, toolIndices, messageIndex, i) {
      assert OpenedBy(openers[i], was, toolIndices, messageIndex, i) && SameCall(was[i], now[i]);
    }
  }

  lemma MirrorMessage(openers: seq<Delivery>, was: seq<Item>, now: seq<Item>, toolIndices: map<nat, nat>)
    requires Mirrors(openers, was, toolIndices, None) && Grown(was, now, 1)
    ensures Mirrors(openers + [TextOf], now, toolIndices, Some(|was|))
  {
    forall i | 0 <= i < |openers| ensures OpenedBy(openers[i], now, toolIndices, Some(|was|), i) {
      assert OpenedBy(openers[i], was, toolIndices, None, i) && SameCall(was[i], now[i]);
    }
  }

  lemma MirrorCall(openers: seq<Delivery>, was: seq<Item>, now: seq<Item>, toolIndices: map<nat, nat>, messageIndex: Option<nat>,
                   c: CallDelta)
    requires Mirrors(openers, was, toolIndices, messageIndex) && Grown(was, now, 1)
    requires c.index !in toolIndices && NamedCall(now, |was|, c)
    ensures Mirrors(openers + [CallOf(c)], now, toolIndices[c.index := |was|], messageIndex)
  {
    forall i | 0 <= i < |openers| ensures OpenedBy(openers[i], now, toolIndices[c.index := |was|], messageIndex, i) {
      assert OpenedBy(openers[i], was, toolIndices, messageIndex, i) && SameCall(was[i], now[i]);
    }
  }

  /** The generator knows an item exactly if some delivery has opened it. */
  lemma MirrorKnows(openers: seq<Delivery>, output: seq<Item>, toolIndices: map<nat, nat>, messageIndex: Option<nat>, d: Delivery)
    requires Mirrors(openers, output, toolIndices, messageIndex)
    ensures (exists o | o in openers :: SameItem(o, d)) <==> if d.TextOf? then messageIndex.Some? else d.call.index in toolIndices
  {
    if exists o | o in openers :: SameItem(o, d) {
      var o :| o in openers && SameItem(o, d);
      var i :| 0 <= i < |openers| && openers[i] == o;
      assert OpenedBy(openers[i], output, toolIndices, messageIndex, i);
    }
    if d.TextOf? {
      if messageIndex.Some? { assert SameItem(openers[messageIndex.value], d); }
    } else {
      if d.call.index in toolIndices { assert SameItem(openers[toolIndices[d.call.index]], d); }
    }
  }

  lemma {:induction false} NamedSoFar(ds: seq<Delivery>, more: seq<Delivery>)
    requires AllNamed(ds + more)
    ensures AllNamed(ds)
  {
    var all := ds + more;
    assert forall i | 0 <= i < |ds| :: all[i] == ds[i] && (Opens(all, i) <==> Opens(ds, i));
    hide Named;
  }

  lemma {:induction false} OpenerListed(ds: seq<Delivery>, i: nat)
    requires i < |ds| && Opens(ds, i)
    ensures ds[i] in Openers(ds)
    decreases |ds|
  {
    var n := |ds| - 1;
    if i < n {
      var before := ds[..n];
      OpensBefore(ds, n, i);
      hide Opens;
      OpenerListed(before, i);
    }
  }

  lemma OpensBefore(ds: seq<Delivery>, n: nat, i: nat)
    requires i < n <= |ds|
    ensures ds[..n][i] == ds[i] && (Opens(ds[..n], i) <==> Opens(ds, i))
  {
    assert forall k | 0 <= k <= i :: ds[..n][k] == ds[k];
  }

  /** The first piece of a call has given its item the id and the name. */
  lemma FirstPieceNames(ds: seq<Delivery>, output: seq<Item>, toolIndices: map<nat, nat>, messageIndex: Option<nat>, i: nat, c: CallDelta)
    requires Mirrors(Openers(ds), output, toolIndices, messageIndex)
    requires i < |ds| && ds[i] == CallOf(c) && forall k | 0 <= k < i && ds[k].CallOf? :: ds[k].call.index != c.index
    ensures c.index in toolIndices && NamedCall(output, toolIndices[c.index], c)
  {
    OpenerListed(ds, i);
    var k :| 0 <= k < |Openers(ds)| && Openers(ds)[k] == CallOf(c);
    assert OpenedBy(Openers(ds)[k], output, toolIndices, messageIndex, k);
  }

  function LastUsage(us: seq<Upstream>): Option<nat>
    decreases |us|
  {
    if us == [] then None else if us[|us| - 1].usage.Some? then us[|us| - 1].usage else LastUsage(us[..|us| - 1])
  }

  function LastFinish(us: seq<Upstream>): Option<string>
    decreases |us|
  {
    if us == [] then None else if us[|us| - 1].finish.Some? then us[|us| - 1].finish else LastFinish(us[..|us| - 1])
  }

  // ---------------------------------------------------------------- the generator

  class ResponseEvents {
    const ids: nat -> string
    var output: seq<Item>
    var toolIndices: map<nat, nat>
    var messageIndex: Option<nat>
    var sequence: nat
    var usage: Option<nat>
    var finish: Option<string>
    var emitted: seq<(nat, Event)>

    /** Everything emitted so far can be replayed, and gives the items that the generator holds. */
    ghost predicate Valid()
      reads this`output, this`toolIndices, this`messageIndex, this`sequence, this`emitted
    {
      && sequence == |emitted| && Numbered(emitted)
      && Replay(emitted) == Some(Client(Streaming, output, Nothing))
      && (forall i | 0 <= i < |output| :: output[i].status.InProgress?)
      && (messageIndex.Some? ==> IsMessage(output, messageIndex.value))
      && (forall i | 0 <= i < |output| && output[i].Message? :: messageIndex == Some(i))
      && (forall b | b in toolIndices :: IsCall(output, toolIndices[b]))
      && (forall a, b | a in toolIndices && b in toolIndices && a != b :: toolIndices[a] != toolIndices[b])
    }

    constructor (ids: nat -> string)
      ensures this.ids == ids && output == [] && emitted == [] && sequence == 0 && usage == None && finish == None
      ensures toolIndices == map[] && messageIndex == None
    {
      this.ids, output, toolIndices, messageIndex := ids, [], map[], None;
      sequence, usage, finish, emitted := 0, None, None, [];
    }

    /** `emit`. */
    method Emit(e: Event)
      requires sequence == |emitted| && Numbered(emitted) && Replay(emitted).Some?
      modifies this`sequence, this`emitted
      ensures sequence == |emitted| && Numbered(emitted) && emitted == old(emitted) + [(old(sequence), e)]
      ensures Replay(emitted) == Apply(Replay(old(emitted)).value, e)
    {
      assert (emitted + [(sequence, e)])[..|emitted|] == emitted;
      emitted := emitted + [(sequence, e)];
      sequence := sequence + 1;
    }

    method Start()
      requires emitted == [] && sequence == 0 && output == [] && toolIndices == map[] && messageIndex == None
      modifies this`sequence, this`emitted
      ensures Valid() && MessageText(output, messageIndex) == ""
    {
      Emit(Created(Snapshot(output, usage)));
      Emit(Started(Snapshot(output, usage)));
    }

    /** A piece of text: the message is opened by the first one. */
    method AddText(text: string)
      requires Valid() && text != ""
      modifies this`output, this`messageIndex, this`sequence, this`emitted
      ensures Valid() && messageIndex.Some?
      ensures MessageText(output, messageIndex) == old(MessageText(output, messageIndex)) + text
      ensures forall b :: Held(output, toolIndices, b) == old(Held(output, toolIndices, b))
      ensures messageIndex == if old(messageIndex).None? then Some(|old(output)|) else old(messageIndex)
      ensures Grown(old(output), output, if old(messageIndex).None? then 1 else 0)
    {
      hide Replay, Numbered;
      if messageIndex.None? { OpenMessage(); }
      ExtendMessage(text);
    }

    method ExtendMessage(text: string)
      requires Valid() && messageIndex.Some?
      modifies this`output, this`sequence, this`emitted
      ensures Valid()
      ensures MessageText(output, messageIndex) == old(MessageText(output, messageIndex)) + text
      ensures forall b :: Held(output, toolIndices, b) == old(Held(output, toolIndices, b))
      ensures Grown(old(output), output, 0)
    {
      hide Replay, Numbered;
      var i := messageIndex.value;
      var item := output[i];
      output := output[i := item.(content := Some(item.content.value + text))];
      Emit(TextDelta(i, item.id, text));
    }

    method OpenMessage()
      requires Valid() && messageIndex.None?
      modifies this`output, this`messageIndex, this`sequence, this`emitted
      ensures Valid() && messageIndex == Some(|old(output)|) && MessageText(output, messageIndex) == ""
      ensures forall b :: Held(output, toolIndices, b) == old(Held(output, toolIndices, b))
      ensures Grown(old(output), output, 1)
    {
      hide Replay, Numbered;
      var i := |output|;
      var item := Message(ids(i), InProgress, None);
      messageIndex := Some(i);
      output := output + [item];
      Emit(ItemAdded(i, item));
      ghost var added := output;
      output := output[i := item.(content := Some(""))];
      Emit(PartAdded(i, item.id));
      assert added[i := item.(content := Some(""))] == output;
    }

    /** A piece of a tool call: its item is opened by the first one, which must bring an id and a name. */
    method AddCall(call: CallDelta) returns (ok: bool)
      requires Valid()
      modifies this`output, this`toolIndices, this`sequence, this`emitted
      ensures Valid() && MessageText(output, messageIndex) == old(MessageText(output, messageIndex))
      ensures ok == (call.index in old(toolIndices) || (call.id != "" && call.name != ""))
      ensures !ok ==> output == old(output) && emitted == old(emitted)
      ensures ok ==> call.index in toolIndices
      ensures ok ==> forall b ::
        Held(output, toolIndices, b) == old(Held(output, toolIndices, b)) + if b == call.index then call.arguments else ""
      ensures ok && call.index in old(toolIndices) ==> toolIndices == old(toolIndices) && Grown(old(output), output, 0)
      ensures ok && call.index !in old(toolIndices) ==>
        && toolIndices == old(toolIndices)[call.index := |old(output)|] && Grown(old(output), output, 1)
        && NamedCall(output, |old(output)|, call)
    {
      if call.index !in toolIndices {
        if call.id == "" || call.name == "" { return false; }
        OpenCall(call);
      }
      if call.arguments != "" { ExtendCall(call.index, call.arguments); }
      return true;
    }

    method OpenCall(call: CallDelta)
      requires Valid() && call.index !in toolIndices
      modifies this`output, this`toolIndices, this`sequence, this`emitted
      ensures Valid() && toolIndices == old(toolIndices)[call.index := |old(output)|]
      ensures Grown(old(output), output, 1) && NamedCall(output, |old(output)|, call)
      ensures forall b :: Held(output, toolIndices, b) == old(Held(output, toolIndices, b))
      ensures MessageText(output, messageIndex) == old(MessageText(output, messageIndex))
    {
      var i := |output|;
      var item := FunctionCall(ids(i), InProgress, call.id, call.name, "");
      toolIndices := toolIndices[call.index := i];
      output := output + [item];
      Emit(ItemAdded(i, item));
    }

    method ExtendCall(index: nat, arguments: string)
      requires Valid() && index in toolIndices
      modifies this`output, this`sequence, this`emitted
      ensures Valid() && MessageText(output, messageIndex) == old(MessageText(output, messageIndex))
      ensures forall b ::
        Held(output, toolIndices, b) == old(Held(output, toolIndices, b)) + if b == index then arguments else ""
      ensures Grown(old(output), output, 0)
    {
      var i := toolIndices[index];
      var item := output[i];
      output := output[i := item.(arguments := item.arguments + arguments)];
      Emit(ArgumentsDelta(i, item.id, arguments));
    }

    /** The loop at the end of a complete stream: each item is marked and reported done. */
    method CloseItems(status: Status)
      requires Valid() && !status.InProgress?
      modifies this`output, this`sequence, this`emitted
      ensures sequence == |emitted| && Numbered(emitted) && Replay(emitted) == Some(Client(Streaming, output, Nothing))
      ensures output == WithStatus(old(output), status)
    {
      ghost var was := output;
      for i := 0 to |output|
        invariant |output| == |was| && sequence == |emitted| && Numbered(emitted)
        invariant Replay(emitted) == Some(Client(Streaming, output, Nothing))
        invariant forall k | 0 <= k < i :: output[k] == was[k].(status := status)
        invariant forall k | i <= k < |output| :: output[k] == was[k]
      {
        CloseItem(i, status);
      }
    }

    /** The content of an item is reported done. */
    method TellContent(i: nat)
      requires sequence == |emitted| && Numbered(emitted) && Replay(emitted) == Some(Client(Streaming, output, Nothing))
      requires i < |output| && (output[i].Message? ==> output[i].content.Some?)
      modifies this`sequence, this`emitted
      ensures sequence == |emitted| && Numbered(emitted) && Replay(emitted) == Some(Client(Streaming, output, ToldAll(i)))
    {
      hide Replay, Numbered;
      var item := output[i];
      if item.Message? {
        Emit(TextDone(i, item.id, item.content.value));
        Emit(PartDone(i, item.id, item.content.value));
      } else {
        Emit(ArgumentsDone(i, item.id, item.name, item.arguments));
      }
    }

    method CloseItem(i: nat, status: Status)
      requires sequence == |emitted| && Numbered(emitted) && Replay(emitted) == Some(Client(Streaming, output, Nothing))
      requires i < |output| && output[i].status.InProgress? && !status.InProgress?
      requires output[i].Message? ==> output[i].content.Some?
      modifies this`output, this`sequence, this`emitted
      ensures sequence == |emitted| && Numbered(emitted) && Replay(emitted) == Some(Client(Streaming, output, Nothing))
      ensures output == old(output)[i := old(output)[i].(status := status)]
    {
      hide Replay, Numbered;
      TellContent(i);
      output := output[i := output[i].(status := status)];
      Emit(ItemDone(i, output[i]));
    }

    /** The handler: an error event, and a snapshot with every item incomplete. */
    method FailStream()
      requires Valid()
      modifies this`output, this`sequence, this`emitted
      ensures sequence == |emitted| && Numbered(emitted)
      ensures Replay(emitted).Some? && Replay(emitted).value.phase.Closed?
      ensures emitted[|emitted| - 1].1 == Failed(Snapshot(output, usage)) && output == WithStatus(old(output), Incomplete)
    {
      ghost var was := output;
      output := WithStatus(output, Incomplete);
      Emit(ErrorEvent);
      Emit(Failed(Snapshot(output, usage)));
    }

    /** Text, behind the deliveries `ds`. */
    method TakeText(text: string, ghost ds: seq<Delivery>)
      requires Valid() && text != "" && Mirrors(Openers(ds), output, toolIndices, messageIndex)
      modifies this`output, this`messageIndex, this`sequence, this`emitted
      ensures Valid() && Mirrors(Openers(ds + [TextOf]), output, toolIndices, messageIndex)
      ensures AllNamed(ds + [TextOf]) <==> AllNamed(ds)
      ensures MessageText(output, messageIndex) == old(MessageText(output, messageIndex)) + text
      ensures forall b :: Held(output, toolIndices, b) == old(Held(output, toolIndices, b))
    {
      hide *;
      OneMore(ds, TextOf);
      TextIsNamed();
      MirrorKnows(Openers(ds), output, toolIndices, messageIndex, TextOf);
      AddText(text);
      if old(messageIndex).None? {
        MirrorMessage(Openers(ds), old(output), output, toolIndices);
      } else {
        MirrorSame(Openers(ds), old(output), output, toolIndices, messageIndex);
        NothingMore(Openers(ds));
      }
    }

    /** A piece of a call, behind the deliveries `ds`. */
    method TakeCall(call: CallDelta, ghost ds: seq<Delivery>) returns (ok: bool)
      requires Valid() && Mirrors(Openers(ds), output, toolIndices, messageIndex) && AllNamed(ds)
      modifies this`output, this`toolIndices, this`sequence, this`emitted
      ensures Valid() && MessageText(output, messageIndex) == old(MessageText(output, messageIndex))
      ensures ok <==> AllNamed(ds + [CallOf(call)])
      ensures ok ==> Mirrors(Openers(ds + [CallOf(call)]), output, toolIndices, messageIndex)
      ensures ok ==> forall b ::
        Held(output, toolIndices, b) == old(Held(output, toolIndices, b)) + if b == call.index then call.arguments else ""
    {
      hide *;
      OneMore(ds, CallOf(call));
      CallIsNamed(call);
      MirrorKnows(Openers(ds), output, toolIndices, messageIndex, CallOf(call));
      ok := AddCall(call);
      if ok {
        if call.index in old(toolIndices) {
          MirrorSame(Openers(ds), old(output), output, toolIndices, messageIndex);
          NothingMore(Openers(ds));
        } else {
          MirrorCall(Openers(ds), old(output), output, old(toolIndices), messageIndex, call);
        }
      }
    }

    /** The tool calls of one event, in order; a failure stops there. */
    method AddCalls(calls: seq<CallDelta>, ghost ds: seq<Delivery>) returns (ok: bool)
      requires Valid() && Mirrors(Openers(ds), output, toolIndices, messageIndex) && AllNamed(ds)
      modifies this`output, this`toolIndices, this`sequence, this`emitted
      ensures Valid() && MessageText(output, messageIndex) == old(MessageText(output, messageIndex))
      ensures ok <==> AllNamed(ds + CallsOf(calls))
      ensures ok ==> Mirrors(Openers(ds + CallsOf(calls)), output, toolIndices, messageIndex)
      ensures ok ==> forall b :: Held(output, toolIndices, b) == old(Held(output, toolIndices, b)) + Pieces(calls, b)
    {
      hide Held, Mirrors, AllNamed, Openers, Replay;
      assert ds + CallsOf([]) == ds && calls[..0] == [];
      for i := 0 to |calls|
        invariant Valid() && MessageText(output, messageIndex) == old(MessageText(output, messageIndex))
        invariant Mirrors(Openers(ds + CallsOf(calls[..i])), output, toolIndices, messageIndex)
        invariant AllNamed(ds + CallsOf(calls[..i]))
        invariant forall b :: Held(output, toolIndices, b) == old(Held(output, toolIndices, b)) + Pieces(calls[..i], b)
      {
        assert calls[..i + 1][..i] == calls[..i];
        OneMoreCall(ds, calls, i);
        ok := TakeCall(calls[i], ds + CallsOf(calls[..i]));
        if !ok {
          CallsSplit(ds, calls, i + 1);
          if AllNamed(ds + CallsOf(calls)) { NamedSoFar(ds + CallsOf(calls[..i + 1]), CallsOf(calls[i + 1..])); }
          return false;
        }
      }
      assert calls[..|calls|] == calls;
      return true;
    }

    /** Usage and reason, when an event brings them. */
    method Note(u: Upstream, ghost us: seq<Upstream>)
      requires usage == LastUsage(us) && finish == LastFinish(us)
      modifies this`usage, this`finish
      ensures usage == LastUsage(us + [u]) && finish == LastFinish(us + [u])
    {
      assert (us + [u])[..|us|] == us;
      if u.usage.Some? { usage := u.usage; }
      if u.finish.Some? { finish := u.finish; }
    }

    /** The items hold what the events `us` have delivered, and are named as these say. */
    ghost predicate Holds(us: seq<Upstream>)
      reads this`output, this`toolIndices, this`messageIndex
    {
      HoldsIn(us, output, toolIndices, messageIndex)
    }

    /** The delta of one event of the backend, behind the events `us`. */
    method TakeDelta(u: Upstream, ghost us: seq<Upstream>) returns (ok: bool)
      requires Valid() && Holds(us) && AllNamed(Deliveries(us))
      modifies this`output, this`toolIndices, this`messageIndex, this`sequence, this`emitted
      ensures Valid()
      ensures ok <==> AllNamed(Deliveries(us + [u]))
      ensures ok ==> Holds(us + [u])
    {
      hide Valid, Held, Mirrors, AllNamed, Openers, Deliveries, MessageText, Pieces;
      OneMoreEvent(us, u);
      TextInIs(u, Deliveries(us));
      assert u.text == "" ==> MessageText(output, messageIndex) + u.text == MessageText(output, messageIndex);
      if u.text != "" { TakeText(u.text, Deliveries(us)); }
      ok := AddCalls(u.calls, Deliveries(us) + TextIn(u));
    }

    /** The loop over the backend's events; a call without its name ends it. */
    method TakeAll(us: seq<Upstream>) returns (ok: bool, ghost taken: nat)
      requires Valid() && Holds([]) && usage == None && finish == None
      modifies this`output, this`toolIndices, this`messageIndex, this`sequence, this`emitted, this`usage, this`finish
      ensures Valid() && taken <= |us|
      ensures ok <==> AllNamed(Deliveries(us))
      ensures ok ==> taken == |us| && Holds(us)
      ensures !ok ==> !AllNamed(Deliveries(us[..taken]))
      ensures forall k | 0 <= k < taken :: AllNamed(Deliveries(us[..k]))
      ensures usage == LastUsage(us[..taken]) && finish == LastFinish(us[..taken])
    {
      NothingYet(us);
      hide *;
      taken := 0;
      for k := 0 to |us|
        invariant taken == k && Valid() && Holds(us[..k])
        invariant forall j | 0 <= j <= k :: AllNamed(Deliveries(us[..j]))
        invariant usage == LastUsage(us[..k]) && finish == LastFinish(us[..k])
      {
        assert us[..k + 1] == us[..k] + [us[k]];
        Note(us[k], us[..k]);
        ok := TakeDelta(us[k], us[..k]);
        taken := k + 1;
        if !ok {
          NamedThroughout(us, k + 1);
          return;
        }
      }
      assert us[..|us|] == us;
      ok := true;
    }

    /** The end of a stream that the backend completed. */
    method Complete(ghost us: seq<Upstream>)
      requires Valid() && Holds(us) && finish.Some?
      modifies this`output, this`sequence, this`emitted
      ensures Numbered(emitted) && Replay(emitted).Some? && Replay(emitted).value.phase.Closed?
      ensures emitted != [] && emitted[|emitted| - 1].1 ==
        ResponseDone(if finish == Some("length") then Incomplete else Completed, Snapshot(output, usage))
      ensures Holds(us)
    {
      hide Replay, Numbered, HoldsIn, Valid;
      var status := if finish == Some("length") then Incomplete else Completed;
      ghost var was := output;
      CloseItems(status);
      StatusOnly(us, was, output, toolIndices, messageIndex, status);
      Emit(ResponseDone(status, Snapshot(output, usage)));
    }

    /**
     `response_events`: `broken` says that the backend stream raises instead of ending. Whatever the
     backend delivers, a client can replay the events from first to last and ends with the items of
     the final snapshot; sequence numbers count from zero; the stream is closed by its last event.
     It succeeds exactly if the backend ends its stream, gives a reason, and names every call in its
     first piece. Then the items are those that deliveries have opened, in order and under their names,
     and the message and each call hold exactly what was delivered for them. `taken` events are read:
     all, unless one of them brings a call without its name. Usage and reason are the last ones read.
     */
    method Run(us: seq<Upstream>, broken: bool) returns (ok: bool, ghost taken: nat)
      requires emitted == [] && sequence == 0 && output == [] && toolIndices == map[] && messageIndex == None
      requires usage == None && finish == None
      modifies this
      ensures Numbered(emitted) && emitted != [] && Replay(emitted).Some? && Replay(emitted).value.phase.Closed?
      ensures ok <==> !broken && LastFinish(us).Some? && AllNamed(Deliveries(us))
      ensures emitted[|emitted| - 1].1 ==
        if !ok then Failed(Snapshot(output, usage))
        else ResponseDone(if LastFinish(us) == Some("length") then Incomplete else Completed, Snapshot(output, usage))
      ensures ok ==> Holds(us)
      ensures taken <= |us| && (taken < |us| ==> !AllNamed(Deliveries(us[..taken])))
      ensures forall k | 0 <= k < taken :: AllNamed(Deliveries(us[..k]))
      ensures usage == LastUsage(us[..taken])
    {
      Start();
      hide *;
      HoldsNothing();
      ok, taken := TakeAll(us);
      WholeTaken(us);
      if !ok || broken || finish.None? {
        FailStream();
        return false, taken;
      }
      Complete(us);
    }

    lemma HoldsNothing()
      requires output == [] && toolIndices == map[] && messageIndex == None
      ensures Holds([])
    {}
  }

  ghost predicate HoldsIn(us: seq<Upstream>, output: seq<Item>, toolIndices: map<nat, nat>, messageIndex: Option<nat>) {
    && Mirrors(Openers(Deliveries(us)), output, toolIndices, messageIndex)
    && MessageText(output, messageIndex) == Texts(us)
    && forall b :: Held(output, toolIndices, b) == Arguments(us, b)
  }

  lemma StatusGrown(was: seq<Item>, status: Status)
    ensures Grown(was, WithStatus(was, status), 0)
  {}

  lemma StatusText(was: seq<Item>, status: Status, messageIndex: Option<nat>)
    ensures MessageText(WithStatus(was, status), messageIndex) == MessageText(was, messageIndex)
  {}

  lemma StatusHeld(was: seq<Item>, status: Status, toolIndices: map<nat, nat>, b: nat)
    ensures Held(WithStatus(was, status), toolIndices, b) == Held(was, toolIndices, b)
  {}

  /** Marking all items changes neither their names nor what they hold. */
  lemma StatusOnly(us: seq<Upstream>, was: seq<Item>, now: seq<Item>, toolIndices: map<nat, nat>, messageIndex: Option<nat>,
                   status: Status)
    requires now == WithStatus(was, status) && HoldsIn(us, was, toolIndices, messageIndex)
    ensures HoldsIn(us, now, toolIndices, messageIndex)
  {
    hide Mirrors, Grown, Openers, Deliveries, Held, MessageText, WithStatus, Texts, Arguments;
    StatusGrown(was, status);
    StatusText(was, status, messageIndex);
    forall b: nat ensures Held(now, toolIndices, b) == Held(was, toolIndices, b) { StatusHeld(was, status, toolIndices, b); }
    MirrorSame(Openers(Deliveries(us)), was, now, toolIndices, messageIndex);
  }

  lemma WholeTaken(us: seq<Upstream>)
    ensures us[..|us|] == us
  {}

  lemma NothingYet(us: seq<Upstream>)
    ensures us[..0] == [] && AllNamed(Deliveries([])) && LastUsage([]) == None && LastFinish([]) == None
  {}

  lemma TextIsNamed()
    ensures Named(TextOf)
  {}

  lemma CallIsNamed(call: CallDelta)
    ensures Named(CallOf(call)) <==> call.id != "" && call.name != ""
  {}

  lemma NothingMore(openers: seq<Delivery>)
    ensures openers + [] == openers
  {}

  lemma TextInIs(u: Upstream, ds: seq<Delivery>)
    ensures if u.text == "" then ds + TextIn(u) == ds else ds + TextIn(u) == ds + [TextOf]
  {}

  lemma OneMoreCall(ds: seq<Delivery>, calls: seq<CallDelta>, i: nat)
    requires i < |calls|
    ensures ds + CallsOf(calls[..i + 1]) == ds + CallsOf(calls[..i]) + [CallOf(calls[i])]
  {
    assert CallsOf(calls[..i + 1]) == CallsOf(calls[..i]) + [CallOf(calls[i])];
  }

  lemma CallsSplit(ds: seq<Delivery>, calls: seq<CallDelta>, i: nat)
    requires i <= |calls|
    ensures ds + CallsOf(calls) == ds + CallsOf(calls[..i]) + CallsOf(calls[i..])
  {
    assert CallsOf(calls) == CallsOf(calls[..i]) + CallsOf(calls[i..]);
  }

  lemma OneMoreEvent(us: seq<Upstream>, u: Upstream)
    ensures Deliveries(us + [u]) == Deliveries(us) + TextIn(u) + CallsOf(u.calls)
  {
    assert (us + [u])[..|us|] == us;
    assert Deliveries(us) + (TextIn(u) + CallsOf(u.calls)) == Deliveries(us) + TextIn(u) + CallsOf(u.calls);
  }

  lemma {:induction false} NamedThroughout(us: seq<Upstream>, k: nat)
    requires k <= |us| && !AllNamed(Deliveries(us[..k]))
    ensures !AllNamed(Deliveries(us))
    decreases |us| - k
  {
    if k < |us| {
      var u := us[k];
      assert us[..k + 1] == us[..k] + [u];
      OneMoreEvent(us[..k], u);
      hide AllNamed;
      if AllNamed(Deliveries(us[..k + 1])) {
        assert Deliveries(us[..k + 1]) == Deliveries(us[..k]) + (TextIn(u) + CallsOf(u.calls));
        NamedSoFar(Deliveries(us[..k]), TextIn(u) + CallsOf(u.calls));
      }
      NamedThroughout(us, k + 1);
    } else {
      assert us[..k] == us;
    }
  }

  predicate IsMessage(output: seq<Item>, i: nat) {
    i < |output| && output[i].Message? && output[i].content.Some?
  }

  predicate IsCall(output: seq<Item>, i: nat) {
    i < |output| && output[i].FunctionCall?
  }

  /** The text of the message, if one was opened. */
  function MessageText(output: seq<Item>, index: Option<nat>): string {
    if index.Some? && IsMessage(output, index.value) then output[index.value].content.value else ""
  }
}
