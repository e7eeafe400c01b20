/**
 Whole turns of a conversation, and dropping the oldest of them until a prompt fits
 (gateway/prompt.py). What a prompt costs is an arbitrary function of the conversation.
 */
module Turns {
  import opened Wrappers

  datatype Role = System | User | Assistant | Tool

  datatype Message = Message(role: Role, content: string)

  type Conversation = seq<Message>

  // ---------------------------------------------------------------- turns

  /** The number of the turn reached after a message; `None` while there were system messages only. */
  function Next(turn: Option<nat>, m: Message): Option<nat> {
    if m.role.System? then turn
    else match turn
         case None => Some(0)
         case Some(n) => if m.role.User? then Some(n + 1) else turn
  }

  /** The turn reached before message `i`. */
  function TurnBefore(c: Conversation, i: nat): Option<nat>
    requires i <= |c|
  {
    if i == 0 then None else Next(TurnBefore(c, i - 1), c[i - 1])
  }

  function Turn(c: Conversation, i: nat): (r: Option<nat>)
    requires i < |c|
    ensures !c[i].role.System? ==> r.Some?
  {
    Next(TurnBefore(c, i), c[i])
  }

  /** The position of the latest user message, or the length if there is none. */
  function LatestUser(c: Conversation): (r: nat)
    ensures r <= |c|
    ensures r < |c| ==> c[r].role.User? && forall i | r < i < |c| :: !c[i].role.User?
    ensures r == |c| ==> forall i | 0 <= i < |c| :: !c[i].role.User?
  {
    if c == [] then 0
    else if c[|c| - 1].role.User? then |c| - 1
    else
      var r := LatestUser(c[..|c| - 1]);
      if r == |c| - 1 then |c| else r
  }

  /** Where the history ends that may be dropped: at the latest user message; without one there is none. */
  function HistoryEnd(c: Conversation): (r: nat)
    ensures r <= |c|
  {
    if LatestUser(c) == |c| then 0 else LatestUser(c)
  }

  function Count(turn: Option<nat>): nat {
    match turn
    case None => 0
    case Some(n) => n + 1
  }

  /** How many turns may be dropped. */
  function TurnCount(c: Conversation): nat {
    Count(TurnBefore(c, HistoryEnd(c)))
  }

  /** Message `i` survives dropping the `k` oldest turns. */
  predicate Stays(c: Conversation, i: nat, k: nat)
    requires i < |c|
  {
    i >= HistoryEnd(c) || c[i].role.System? || Turn(c, i).value >= k
  }

  function Select(c: Conversation, i: nat, k: nat, stays: bool): seq<Message>
    requires i <= |c|
    decreases |c| - i
  {
    if i == |c| then [] else
      (if Stays(c, i, k) == stays then [c[i]] else []) + Select(c, i + 1, k, stays)
  }

  /** What remains after dropping the `k` oldest turns, in order. */
  function Kept(c: Conversation, k: nat): Conversation {
    Select(c, 0, k, true)
  }

  /** What has been dropped, in order. */
  function Gone(c: Conversation, k: nat): Conversation {
    Select(c, 0, k, false)
  }

  // ---------------------------------------------------------------- dropping one turn after the other

  /** The messages of `h` outside the first `k` turns, when `turn` was reached before `h`. */
  function Keep(h: Conversation, turn: Option<nat>, k: nat): (r: Conversation)
    ensures |r| <= |h|
  {
    if h == [] then [] else
      var t := Next(turn, h[0]);
      (if h[0].role.System? || t.value >= k then [h[0]] else []) + Keep(h[1..], t, k)
  }

  function TurnAfter(h: Conversation, turn: Option<nat>): Option<nat> {
    if h == [] then turn else TurnAfter(h[1..], Next(turn, h[0]))
  }

  /** The turn's number once the first `k` are gone. */
  function Shift(turn: Option<nat>, k: nat): Option<nat> {
    if turn.Some? && turn.value >= k then Some(turn.value - k) else None
  }

  /** The messages of the first `k` turns of `h`. */
  function Drop(h: Conversation, turn: Option<nat>, k: nat): Conversation {
    if h == [] then [] else
      var t := Next(turn, h[0]);
      (if h[0].role.System? || t.value >= k then [] else [h[0]]) + Drop(h[1..], t, k)
  }

  lemma NextShift(m: Message, turn: Option<nat>, k: nat)
    ensures var t := Next(turn, m);
      if m.role.System? || t.value >= k then Next(Shift(turn, k), m) == Shift(t, k) && (t.Some? && t.value >= k ==> Shift(t, k) == Some(t.value - k))
      else Shift(turn, k) == None && Shift(t, k) == None
  {}

  lemma KeepOne(m: Message, h: Conversation, turn: Option<nat>, k: nat)
    ensures var t := Next(turn, m);
      Keep([m] + h, turn, k) == if m.role.System? || t.value >= k then [m] + Keep(h, t, k) else Keep(h, t, k)
  {
    assert ([m] + h)[1..] == h;
    assert [] + Keep(h, Next(turn, m), k) == Keep(h, Next(turn, m), k);
  }

  /** Keeping in two rounds is keeping in one, and numbers the turns from where the first round ended. */
  predicate KeepsInTwo(h: Conversation, turn: Option<nat>, k: nat, j: nat) {
    && Keep(Keep(h, turn, k), Shift(turn, k), j) == Keep(h, turn, k + j)
    && TurnAfter(Keep(h, turn, k), Shift(turn, k)) == Shift(TurnAfter(h, turn), k)
  }

  lemma KeepBehind(m: Message, h: Conversation, turn: Option<nat>, k: nat, j: nat)
    requires KeepsInTwo(h, Next(turn, m), k, j)
    ensures KeepsInTwo([m] + h, turn, k, j)
  {
    hide Keep, Shift;
    var t := Next(turn, m);
    KeepOne(m, h, turn, k);
    KeepOne(m, h, turn, k + j);
    NextShift(m, turn, k);
    assert ([m] + h)[1..] == h;
    if m.role.System? || t.value >= k {
      KeepOne(m, Keep(h, t, k), Shift(turn, k), j);
      assert ([m] + Keep(h, t, k))[1..] == Keep(h, t, k);
    }
  }

  lemma {:induction false} KeepTwice(h: Conversation, turn: Option<nat>, k: nat, j: nat)
    ensures KeepsInTwo(h, turn, k, j)
  {
    if h != [] {
      hide KeepsInTwo;
      assert h == [h[0]] + h[1..];
      KeepTwice(h[1..], Next(turn, h[0]), k, j);
      KeepBehind(h[0], h[1..], turn, k, j);
    }
  }

  lemma {:induction false} TurnAfterIs(c: Conversation, i: nat, e: nat)
    requires i <= e <= |c|
    ensures TurnAfter(c[i..e], TurnBefore(c, i)) == TurnBefore(c, e)
    decreases e - i
  {
    if i < e {
      assert c[i..e][1..] == c[i + 1..e];
      TurnAfterIs(c, i + 1, e);
    }
  }

  lemma {:induction false} SelectIsKeep(c: Conversation, i: nat, k: nat)
    requires i <= HistoryEnd(c)
    ensures Select(c, i, k, true) == Keep(c[i..HistoryEnd(c)], TurnBefore(c, i), k) + c[HistoryEnd(c)..]
    decreases HistoryEnd(c) - i
  {
    var e := HistoryEnd(c);
    if i == e {
      SelectTail(c, e, k);
      assert c[e..e] == [];
    } else {
      assert c[i..e][1..] == c[i + 1..e];
      SelectIsKeep(c, i + 1, k);
    }
  }

  lemma {:induction false} SelectTail(c: Conversation, i: nat, k: nat)
    requires HistoryEnd(c) <= i <= |c|
    ensures Select(c, i, k, true) == c[i..] && Select(c, i, k, false) == []
    decreases |c| - i
  {
    if i < |c| { SelectTail(c, i + 1, k); }
  }

  /** What remains is the kept history followed by everything from the latest user message on. */
  lemma KeptIsKeep(c: Conversation, k: nat)
    ensures Kept(c, k) == Keep(c[..HistoryEnd(c)], None, k) + c[HistoryEnd(c)..]
  {
    SelectIsKeep(c, 0, k);
    assert c[0..HistoryEnd(c)] == c[..HistoryEnd(c)];
  }

  lemma {:induction false} KeepNoUser(h: Conversation, turn: Option<nat>, k: nat)
    requires forall m | m in h :: !m.role.User?
    ensures forall m | m in Keep(h, turn, k) :: !m.role.User?
  {
    if h != [] { KeepNoUser(h[1..], Next(turn, h[0]), k); }
  }

  lemma LatestUserUnique(c: Conversation, r: nat)
    requires r < |c| && c[r].role.User? && forall i | r < i < |c| :: !c[i].role.User?
    ensures LatestUser(c) == r
  {
    var q := LatestUser(c);
  }

  /** The history of what remains is the kept history. */
  lemma KeptHistory(c: Conversation, k: nat)
    ensures HistoryEnd(Kept(c, k)) == |Keep(c[..HistoryEnd(c)], None, k)|
    ensures Kept(c, k)[..HistoryEnd(Kept(c, k))] == Keep(c[..HistoryEnd(c)], None, k)
    ensures Kept(c, k)[HistoryEnd(Kept(c, k))..] == c[HistoryEnd(c)..]
  {
    var e := HistoryEnd(c);
    var h := Keep(c[..e], None, k);
    KeptIsKeep(c, k);
    if LatestUser(c) == |c| {
      assert h == [] && Kept(c, k) == c;
    } else {
      LatestUserUnique(h + c[e..], |h|);
    }
  }

  lemma BeforeAll(c: Conversation)
    ensures TurnBefore(c, 0) == None
  {}

  /** Dropping `k` turns and then `j` more is dropping `k + j` turns. */
  lemma KeptTwice(c: Conversation, k: nat, j: nat)
    ensures Kept(Kept(c, k), j) == Kept(c, k + j)
    ensures TurnCount(Kept(c, k)) == if TurnCount(c) <= k then 0 else TurnCount(c) - k
  {
    hide Keep, Select, TurnBefore, LatestUser, HistoryEnd, TurnAfter;
    assert TurnBefore(c, 0) == None && TurnBefore(Kept(c, k), 0) == None by { BeforeAll(c); BeforeAll(Kept(c, k)); }
    var e, d := HistoryEnd(c), Kept(c, k);
    KeptHistory(c, k);
    KeptIsKeep(c, k + j);
    KeptIsKeep(d, j);
    KeepTwice(c[..e], None, k, j);
    TurnAfterIs(c, 0, e);
    TurnAfterIs(d, 0, HistoryEnd(d));
    assert c[0..e] == c[..e] && d[0..HistoryEnd(d)] == d[..HistoryEnd(d)];
  }

  lemma {:induction false} SelectIsDrop(c: Conversation, i: nat, k: nat)
    requires i <= HistoryEnd(c)
    ensures Select(c, i, k, false) == Drop(c[i..HistoryEnd(c)], TurnBefore(c, i), k)
    decreases HistoryEnd(c) - i
  {
    var e := HistoryEnd(c);
    if i == e {
      SelectTail(c, e, k);
      assert c[e..e] == [];
    } else {
      assert c[i..e][1..] == c[i + 1..e];
      SelectIsDrop(c, i + 1, k);
    }
  }

  /** No message of a first turn follows a later turn. */
  lemma {:induction false} DropNothing(h: Conversation, turn: Option<nat>, k: nat)
    requires turn.Some? && turn.value >= k
    ensures Drop(h, turn, k) == []
  {
    if h != [] { DropNothing(h[1..], Next(turn, h[0]), k); }
  }

  lemma DropOne(m: Message, h: Conversation, turn: Option<nat>, k: nat)
    ensures var t := Next(turn, m);
      Drop([m] + h, turn, k) == if m.role.System? || t.value >= k then Drop(h, t, k) else [m] + Drop(h, t, k)
  {
    assert ([m] + h)[1..] == h;
    assert [] + Drop(h, Next(turn, m), k) == Drop(h, Next(turn, m), k);
  }

  /** What `k` drops and then one more take from `h` is what `k + 1` drops take. */
  predicate OneMoreDrop(h: Conversation, turn: Option<nat>, k: nat) {
    Drop(h, turn, k) + Drop(Keep(h, turn, k), Shift(turn, k), 1) == Drop(h, turn, k + 1)
  }

  lemma DropBehindGone(m: Message, h: Conversation, turn: Option<nat>, k: nat)
    requires var t := Next(turn, m); !m.role.System? && t.value < k && OneMoreDrop(h, t, k)
    ensures OneMoreDrop([m] + h, turn, k)
  {
    hide Keep, Drop, Shift;
    KeepOne(m, h, turn, k);
    DropOne(m, h, turn, k);
    DropOne(m, h, turn, k + 1);
    NextShift(m, turn, k);
  }

  lemma DropBehindSystem(m: Message, h: Conversation, turn: Option<nat>, k: nat)
    requires m.role.System? && OneMoreDrop(h, turn, k)
    ensures OneMoreDrop([m] + h, turn, k)
  {
    hide Keep, Drop, Shift;
    KeepOne(m, h, turn, k);
    DropOne(m, h, turn, k);
    DropOne(m, h, turn, k + 1);
    NextShift(m, turn, k);
    DropOne(m, Keep(h, turn, k), Shift(turn, k), 1);
  }

  lemma DropBehindKept(m: Message, h: Conversation, turn: Option<nat>, k: nat)
    requires var t := Next(turn, m); !m.role.System? && t.value >= k && OneMoreDrop(h, t, k)
    ensures OneMoreDrop([m] + h, turn, k)
  {
    hide Keep, Drop, Shift;
    var t := Next(turn, m);
    KeepOne(m, h, turn, k);
    DropOne(m, h, turn, k);
    DropOne(m, h, turn, k + 1);
    NextShift(m, turn, k);
    DropOne(m, Keep(h, t, k), Shift(turn, k), 1);
    DropNothing(h, t, k);
  }

  lemma {:induction false} DropTwice(h: Conversation, turn: Option<nat>, k: nat)
    ensures OneMoreDrop(h, turn, k)
  {
    if h != [] {
      var m, rest := h[0], h[1..];
      var t := Next(turn, m);
      assert h == [m] + rest;
      DropTwice(rest, t, k);
      hide OneMoreDrop;
      if m.role.System? {
        DropBehindSystem(m, rest, turn, k);
      } else if t.value < k {
        DropBehindGone(m, rest, turn, k);
      } else {
        DropBehindKept(m, rest, turn, k);
      }
    }
  }

  /** What `k` drops and then one more take away is what `k + 1` drops take away, in order. */
  lemma GoneTwice(c: Conversation, k: nat)
    ensures Gone(c, k) + Gone(Kept(c, k), 1) == Gone(c, k + 1)
  {
    var d := Kept(c, k);
    KeptHistory(c, k);
    SelectIsDrop(c, 0, k);
    SelectIsDrop(c, 0, k + 1);
    SelectIsDrop(d, 0, 1);
    assert c[0..HistoryEnd(c)] == c[..HistoryEnd(c)] && d[0..HistoryEnd(d)] == d[..HistoryEnd(d)];
    DropTwice(c[..HistoryEnd(c)], None, k);
  }

  lemma {:induction false} SelectAll(c: Conversation, i: nat)
    requires i <= |c|
    ensures Select(c, i, 0, true) == c[i..] && Select(c, i, 0, false) == []
    decreases |c| - i
  {
    if i < |c| { SelectAll(c, i + 1); }
  }

  lemma {:induction false} SelectLengths(c: Conversation, i: nat, k: nat)
    requires i <= |c|
    ensures |Select(c, i, k, true)| + |Select(c, i, k, false)| == |c| - i
    decreases |c| - i
  {
    if i < |c| { SelectLengths(c, i + 1, k); }
  }

  lemma {:induction false} TurnsGrow(c: Conversation, i: nat, j: nat)
    requires i <= j <= |c|
    ensures Count(TurnBefore(c, i)) <= Count(TurnBefore(c, j))
    decreases j - i
  {
    if i < j { TurnsGrow(c, i, j - 1); }
  }

  // ---------------------------------------------------------------- the oldest turn

  /** Message `i` belongs to the oldest turn that may be dropped. */
  predicate InOldestTurn(c: Conversation, i: nat)
    requires i < |c|
  {
    !Stays(c, i, 1)
  }

  /** The oldest turn starts at the first message that is no system message, and ends before the next user message. */
  predicate TurnSpan(c: Conversation, start: nat, end: nat) {
    && start < end <= LatestUser(c) < |c|
    && TurnBefore(c, start) == None && !c[start].role.System?
    && (forall i | start < i <= end :: TurnBefore(c, i) == Some(0))
    && (end < LatestUser(c) ==> c[end].role.User?)
  }

  lemma InSpan(c: Conversation, start: nat, end: nat, i: nat)
    requires TurnSpan(c, start, end) && i < |c|
    ensures InOldestTurn(c, i) <==> start <= i < end && !c[i].role.System?
  {
    if i < start {
      TurnsGrow(c, i + 1, start);
      assert TurnBefore(c, i + 1) == Turn(c, i);
    } else if i < end {
      assert TurnBefore(c, i + 1) == Some(0);
    } else if i < LatestUser(c) {
      assert TurnBefore(c, end + 1) == Some(1);
      TurnsGrow(c, end + 1, i + 1);
    }
  }

  /** Nothing but system messages before the latest user message. */
  lemma NoTurns(c: Conversation, i: nat)
    requires LatestUser(c) < |c| && TurnBefore(c, LatestUser(c)) == None && i < |c|
    ensures !InOldestTurn(c, i)
  {
    hide LatestUser;
    if i < LatestUser(c) {
      TurnsGrow(c, i + 1, LatestUser(c));
      assert TurnBefore(c, i + 1) == Turn(c, i) == None;
    }
  }

  /** The first loops of `oldest_removable_turn`: where the oldest turn starts and ends, if there is one. */
  method FindTurn(c: Conversation) returns (span: Option<(nat, nat)>)
    ensures span.Some? ==> TurnSpan(c, span.value.0, span.value.1)
    ensures span.None? ==> TurnCount(c) == 0 && forall i | 0 <= i < |c| :: !InOldestTurn(c, i)
  {
    var latest := |c|;
    while latest > 0 && !c[latest - 1].role.User?
      invariant 0 <= latest <= |c|
      invariant forall i | latest <= i < |c| :: !c[i].role.User?
    {
      latest := latest - 1;
    }
    if latest == 0 { return None; }
    latest := latest - 1;
    LatestUserUnique(c, latest);
    var start := 0;
    while start < latest && c[start].role.System?
      invariant start <= latest && TurnBefore(c, start) == None
    {
      start := start + 1;
    }
    if start == latest {
      forall i | 0 <= i < |c| ensures !InOldestTurn(c, i) { NoTurns(c, i); }
      return None;
    }
    var end := start + 1;
    while end < latest && !c[end].role.User?
      invariant start < end <= latest
      invariant forall i | start < i <= end :: TurnBefore(c, i) == Some(0)
    {
      end := end + 1;
    }
    return Some((start, end));
  }

  /** `oldest_removable_turn`: the indices of the oldest turn before the latest user message. */
  method OldestRemovableTurn(c: Conversation) returns (r: seq<nat>)
    ensures forall i | 0 <= i < |r| :: r[i] < |c|
    ensures forall i | 0 <= i < |c| :: i in r <==> InOldestTurn(c, i)
    ensures forall i, j | 0 <= i < j < |r| :: r[i] < r[j]
    ensures r == [] <==> TurnCount(c) == 0
  {
    var span := FindTurn(c);
    if span.None? { return []; }
    var (start, end) := span.value;
    r := [];
    for i := start to end
      invariant forall k | 0 <= k < |r| :: start <= r[k] < i
      invariant forall k | start <= k < i :: k in r <==> !c[k].role.System?
      invariant forall k, l | 0 <= k < l < |r| :: r[k] < r[l]
    {
      if !c[i].role.System? { r := r + [i]; }
    }
    forall i | 0 <= i < |c| ensures i in r <==> InOldestTurn(c, i) { InSpan(c, start, end, i); }
    TurnsGrow(c, start + 1, LatestUser(c));
    assert start in r;
  }

  /** The list comprehension that leaves out the removable indices. */
  method Without(c: Conversation, removable: seq<nat>) returns (r: Conversation)
    requires forall i | 0 <= i < |c| :: i in removable <==> InOldestTurn(c, i)
    ensures r == Kept(c, 1)
  {
    hide TurnBefore, LatestUser, HistoryEnd, Turn;
    r := [];
    for i := 0 to |c|
      invariant Kept(c, 1) == r + Select(c, i, 1, true)
    {
      if i !in removable { r := r + [c[i]]; }
    }
  }

  // ---------------------------------------------------------------- fitting

  /** The fewest dropped turns, from `k` on, for which the prompt fits. */
  function LeastFit(c: Conversation, cost: Conversation -> nat, limit: int, k: nat): (r: Option<nat>)
    ensures r.Some? ==> k <= r.value <= TurnCount(c) && cost(Kept(c, r.value)) <= limit
    ensures r.Some? ==> forall j | k <= j < r.value :: cost(Kept(c, j)) > limit
    ensures r.None? ==> forall j | k <= j <= TurnCount(c) :: cost(Kept(c, j)) > limit
    decreases TurnCount(c) + 1 - k
  {
    if k > TurnCount(c) then None
    else if cost(Kept(c, k)) <= limit then Some(k)
    else LeastFit(c, cost, limit, k + 1)
  }

  /**
   The loop of `fit_conversation_to_context`: drops the fewest oldest turns that make the prompt
   fit, and fails exactly when even dropping every turn would not.
   */
  method Fit(c: Conversation, cost: Conversation -> nat, limit: int) returns (r: Result<(Conversation, nat)>)
    ensures r.Fail? <==> LeastFit(c, cost, limit, 0).None?
    ensures r.Ok? ==> r.value.0 == Kept(c, LeastFit(c, cost, limit, 0).value)
    ensures r.Ok? ==> cost(r.value.0) <= limit && r.value.1 == |Gone(c, LeastFit(c, cost, limit, 0).value)|
  {
    var fitted, dropped := c, 0;
    ghost var k := 0;
    SelectAll(c, 0);
    while cost(fitted) > limit
      invariant k <= TurnCount(c) && fitted == Kept(c, k) && dropped + |fitted| == |c|
      invariant LeastFit(c, cost, limit, 0) == LeastFit(c, cost, limit, k)
      decreases TurnCount(c) - k
    {
      var removable := OldestRemovableTurn(fitted);
      KeptTwice(c, k, 1);
      if removable == [] { return Fail; }
      var rest := Without(fitted, removable);
      RemovedCount(fitted, removable);
      fitted, dropped, k := rest, dropped + |removable|, k + 1;
    }
    SelectLengths(c, 0, k);
    return Ok((fitted, dropped));
  }

  /** The removable indices are as many as the messages that go. */
  lemma RemovedCount(c: Conversation, removable: seq<nat>)
    requires forall i | 0 <= i < |removable| :: removable[i] < |c|
    requires forall i | 0 <= i < |c| :: i in removable <==> InOldestTurn(c, i)
    requires forall i, j | 0 <= i < j < |removable| :: removable[i] < removable[j]
    ensures |removable| + |Kept(c, 1)| == |c|
  {
    GoneCount(c, removable, 0);
    SelectLengths(c, 0, 1);
  }

  lemma FirstIs(rest: seq<nat>, i: nat)
    requires i in rest && forall k | 0 <= k < |rest| :: i <= rest[k]
    requires forall k, l | 0 <= k < l < |rest| :: rest[k] < rest[l]
    ensures rest[0] == i
  {
    var j :| 0 <= j < |rest| && rest[j] == i;
  }

  lemma {:induction false} GoneCount(c: Conversation, rest: seq<nat>, i: nat)
    requires i <= |c| && forall k | 0 <= k < |rest| :: i <= rest[k] < |c|
    requires forall k | i <= k < |c| :: k in rest <==> InOldestTurn(c, k)
    requires forall k, l | 0 <= k < l < |rest| :: rest[k] < rest[l]
    ensures |rest| == |Select(c, i, 1, false)|
    decreases |c| - i
  {
    if i < |c| {
      if i in rest {
        FirstIs(rest, i);
        forall k | i + 1 <= k < |c| ensures k in rest[1..] <==> InOldestTurn(c, k) {
          assert k in rest ==> k in rest[1..];
        }
        GoneCount(c, rest[1..], i + 1);
      } else {
        assert i !in rest;
        GoneCount(c, rest, i + 1);
      }
    }
  }

  // ---------------------------------------------------------------- what survives

  /** `r` picks messages of `c` at increasing positions, which `at` lists. */
  predicate Picks(c: Conversation, r: Conversation, at: seq<nat>) {
    && |at| == |r|
    && (forall i | 0 <= i < |at| :: at[i] < |c| && c[at[i]] == r[i])
    && (forall i, j | 0 <= i < j < |at| :: at[i] < at[j])
  }

  function Positions(c: Conversation, i: nat, k: nat, stays: bool): (r: seq<nat>)
    requires i <= |c|
    ensures forall p | 0 <= p < |r| :: i <= r[p] < |c|
    decreases |c| - i
  {
    if i == |c| then [] else
      (if Stays(c, i, k) == stays then [i] else []) + Positions(c, i + 1, k, stays)
  }

  lemma {:induction false} PositionsAre(c: Conversation, i: nat, k: nat, stays: bool, p: nat)
    requires i <= p < |c|
    ensures p in Positions(c, i, k, stays) <==> Stays(c, p, k) == stays
    decreases |c| - i
  {
    hide Stays;
    if i < p {
      PositionsAre(c, i + 1, k, stays, p);
    } else {
      NotFurtherOn(c, p + 1, k, stays, p);
    }
  }

  lemma NotFurtherOn(c: Conversation, i: nat, k: nat, stays: bool, p: nat)
    requires p < i <= |c|
    ensures p !in Positions(c, i, k, stays)
  {
    hide Positions;
  }

  lemma PicksInFront(c: Conversation, i: nat, r: Conversation, at: seq<nat>)
    requires i < |c| && Picks(c, r, at) && forall p | 0 <= p < |at| :: at[p] > i
    ensures Picks(c, [c[i]] + r, [i] + at)
  {}

  lemma {:induction false} PicksPositions(c: Conversation, i: nat, k: nat, stays: bool)
    requires i <= |c|
    ensures Picks(c, Select(c, i, k, stays), Positions(c, i, k, stays))
    decreases |c| - i
  {
    hide Stays;
    if i < |c| {
      hide Picks;
      PicksPositions(c, i + 1, k, stays);
      PicksInFront(c, i, Select(c, i + 1, k, stays), Positions(c, i + 1, k, stays));
      assert [] + Select(c, i + 1, k, stays) == Select(c, i + 1, k, stays);
      assert [] + Positions(c, i + 1, k, stays) == Positions(c, i + 1, k, stays);
    }
  }

  /**
   Dropping partitions the messages in order: each position is either kept or gone; system
   messages and everything from the latest user message on are kept, and so is all of a turn or
   none of it.
   */
  lemma DroppingPartitions(c: Conversation, k: nat)
    ensures var kept, gone := Positions(c, 0, k, true), Positions(c, 0, k, false);
      && Picks(c, Kept(c, k), kept) && Picks(c, Gone(c, k), gone)
      && (forall p | 0 <= p < |c| :: p in kept <==> p !in gone)
      && (forall p | 0 <= p < |c| && (c[p].role.System? || p >= HistoryEnd(c)) :: p in kept)
      && (forall p, q | 0 <= p < q < HistoryEnd(c) && !c[p].role.System? && !c[q].role.System? ::
        (Turn(c, p) == Turn(c, q) ==> (p in kept <==> q in kept)) && (p in kept ==> q in kept))
  {
    PicksPositions(c, 0, k, true);
    PicksPositions(c, 0, k, false);
    hide Picks, Positions;
    var kept, gone := Positions(c, 0, k, true), Positions(c, 0, k, false);
    forall p | 0 <= p < |c| ensures (p in kept <==> Stays(c, p, k)) && (p in gone <==> !Stays(c, p, k)) {
      PositionsAre(c, 0, k, true, p);
      PositionsAre(c, 0, k, false, p);
    }
    forall p, q | 0 <= p < q < HistoryEnd(c) && !c[p].role.System? && !c[q].role.System?
      ensures (Turn(c, p) == Turn(c, q) ==> (p in kept <==> q in kept)) && (p in kept ==> q in kept)
    {
      TurnsGrow(c, p + 1, q + 1);
      assert TurnBefore(c, p + 1) == Turn(c, p) && TurnBefore(c, q + 1) == Turn(c, q);
    }
  }
}
