/**
 Which turns are handed to the summary model (gateway/context_compression.py): the fewest oldest
 ones, at least one, for which the estimate fits, never touching the protected recent messages.
 */
module Selection {
  import opened Wrappers
  import opened Turns

  // ---------------------------------------------------------------- recent history

  /** How many messages are no system messages. */
  function Spoken(h: Conversation): (r: nat)
    ensures r <= |h|
  {
    if h == [] then 0 else (if h[0].role.System? then 0 else 1) + Spoken(h[1..])
  }

  /** How many messages the history before the latest user message holds. */
  function History(c: Conversation): nat {
    Spoken(c[..HistoryEnd(c)])
  }

  /** One of the last `preserve` messages of the history. */
  predicate Protected(c: Conversation, i: nat, preserve: nat)
    requires i < |c|
  {
    i < HistoryEnd(c) && !c[i].role.System? && Spoken(c[i + 1..HistoryEnd(c)]) < preserve
  }

  /** `_protected_history_indices`, from the end backwards. */
  method ProtectedIndices(c: Conversation, preserve: nat) returns (r: set<nat>)
    ensures forall i | 0 <= i < |c| :: i in r <==> Protected(c, i, preserve)
  {
    r := {};
    if preserve == 0 { return; }
    var i, taken := HistoryEnd(c), 0;
    assert c[i..HistoryEnd(c)] == [];
    while i > 0 && taken < preserve
      invariant 0 <= i <= HistoryEnd(c) && taken <= preserve
      invariant taken == Spoken(c[i..HistoryEnd(c)])
      invariant forall k | k in r :: i <= k < HistoryEnd(c)
      invariant forall k | i <= k < |c| :: k in r <==> Protected(c, k, preserve)
    {
      i := i - 1;
      assert c[i..HistoryEnd(c)][1..] == c[i + 1..HistoryEnd(c)];
      if !c[i].role.System? {
        r, taken := r + {i}, taken + 1;
      }
    }
    forall k | 0 <= k < i ensures !Protected(c, k, preserve) { SpokenGrows(c, k + 1, i, HistoryEnd(c)); }
  }

  lemma {:induction false} SpokenGrows(c: Conversation, i: nat, j: nat, e: nat)
    requires i <= j <= e <= |c|
    ensures Spoken(c[i..e]) >= Spoken(c[j..e])
    decreases j - i
  {
    if i < j {
      assert c[i..e][1..] == c[i + 1..e];
      SpokenGrows(c, i + 1, j, e);
    }
  }

  // ---------------------------------------------------------------- what dropping leaves of the history

  /** The messages from `i` on that are behind `end`. */
  function Behind(c: Conversation, end: nat, e: nat, i: nat): nat
    requires end <= e <= |c| && i <= e
  {
    Spoken(c[(if i < end then end else i)..e])
  }

  lemma BehindStep(c: Conversation, end: nat, e: nat, i: nat)
    requires end <= e <= |c| && i < e
    ensures Behind(c, end, e, i) == (if c[i].role.System? || i < end then 0 else 1) + Behind(c, end, e, i + 1)
  {
    if end <= i { SpokenOne(c, i, e); }
  }

  lemma BehindEnd(c: Conversation, end: nat, e: nat)
    requires end <= e <= |c|
    ensures Behind(c, end, e, e) == 0 && Spoken(Keep(c[e..e], TurnBefore(c, e), 1)) == 0
  {
    assert c[e..e] == [];
  }

  lemma SpanInHistory(c: Conversation, start: nat, end: nat)
    requires TurnSpan(c, start, end)
    ensures start < end <= HistoryEnd(c)
  {}

  /** The history left after dropping the oldest turn is what follows that turn. */
  lemma {:induction false} SpokenAfterTurn(c: Conversation, start: nat, end: nat, i: nat)
    requires TurnSpan(c, start, end) && end <= HistoryEnd(c) && i <= HistoryEnd(c)
    ensures Spoken(Keep(c[i..HistoryEnd(c)], TurnBefore(c, i), 1)) == Behind(c, end, HistoryEnd(c), i)
    decreases HistoryEnd(c) - i
  {
    hide *;
    var e := HistoryEnd(c);
    if i == e {
      BehindEnd(c, end, e);
    } else {
      SpokenAfterTurn(c, start, end, i + 1);
      OldestOrLater(c, start, end, i);
      KeepOne(c, i, e, 1);
      BehindStep(c, end, e, i);
    }
  }

  /** Before the end of the oldest turn there are system messages and its own messages, and behind it later turns. */
  lemma OldestOrLater(c: Conversation, start: nat, end: nat, i: nat)
    requires TurnSpan(c, start, end) && i < HistoryEnd(c)
    ensures c[i].role.System? || Turn(c, i).value < 1 <==> c[i].role.System? || i < end
  {
    InSpan(c, start, end, i);
    if i < start {
      TurnsGrow(c, i + 1, start);
      assert TurnBefore(c, i + 1) == Turn(c, i);
    }
  }

  lemma SpokenOne(c: Conversation, i: nat, e: nat)
    requires i < e <= |c|
    ensures Spoken(c[i..e]) == (if c[i].role.System? then 0 else 1) + Spoken(c[i + 1..e])
  {
    assert c[i..e][1..] == c[i + 1..e];
  }

  /** One more message in front of what is kept. */
  lemma KeepOne(c: Conversation, i: nat, e: nat, k: nat)
    requires i < e <= |c|
    ensures Spoken(Keep(c[i..e], TurnBefore(c, i), k)) ==
      (if c[i].role.System? || Turn(c, i).value < k then 0 else 1) + Spoken(Keep(c[i + 1..e], TurnBefore(c, i + 1), k))
  {
    assert c[i..e][1..] == c[i + 1..e];
    var rest := Keep(c[i + 1..e], TurnBefore(c, i + 1), k);
    if c[i].role.System? || Turn(c, i).value >= k {
      assert ([c[i]] + rest)[1..] == rest;
    } else {
      assert [] + rest == rest;
    }
  }

  lemma KeptSpoken(c: Conversation, k: nat)
    ensures History(Kept(c, k)) == Spoken(Keep(c[0..HistoryEnd(c)], TurnBefore(c, 0), k))
  {
    KeptHistory(c, k);
    assert c[0..HistoryEnd(c)] == c[..HistoryEnd(c)];
  }

  /** The oldest turn holds a protected message exactly when fewer than `preserve` messages would be left. */
  lemma ProtectionIs(c: Conversation, preserve: nat)
    requires TurnCount(c) > 0
    ensures (exists i | 0 <= i < |c| :: InOldestTurn(c, i) && Protected(c, i, preserve)) <==> History(Kept(c, 1)) < preserve
  {
    hide *;
    var span := SpanOf(c);
    var start, end := span.0, span.1;
    SpanInHistory(c, start, end);
    LeftIs(c, start, end);
    if Spoken(c[end..HistoryEnd(c)]) < preserve {
      var last := LastProtected(c, start, end, preserve);
      assert InOldestTurn(c, last) && Protected(c, last, preserve);
    } else {
      forall i | 0 <= i < |c| && InOldestTurn(c, i) ensures !Protected(c, i, preserve) {
        NotProtected(c, start, end, preserve, i);
      }
    }
  }

  lemma LeftIs(c: Conversation, start: nat, end: nat)
    requires TurnSpan(c, start, end) && end <= HistoryEnd(c)
    ensures History(Kept(c, 1)) == Spoken(c[end..HistoryEnd(c)])
  {
    KeptSpoken(c, 1);
    SpokenAfterTurn(c, start, end, 0);
    SpanInHistory(c, start, end);
    assert Behind(c, end, HistoryEnd(c), 0) == Spoken(c[end..HistoryEnd(c)]);
    hide *;
  }

  lemma NotProtected(c: Conversation, start: nat, end: nat, preserve: nat, i: nat)
    requires TurnSpan(c, start, end) && end <= HistoryEnd(c) && i < |c| && InOldestTurn(c, i)
    requires Spoken(c[end..HistoryEnd(c)]) >= preserve
    ensures !Protected(c, i, preserve)
  {
    hide Spoken, TurnSpan, HistoryEnd, InOldestTurn;
    InSpan(c, start, end, i);
    SpokenGrows(c, i + 1, end, HistoryEnd(c));
  }

  lemma LastProtected(c: Conversation, start: nat, end: nat, preserve: nat) returns (last: nat)
    requires TurnSpan(c, start, end) && end <= HistoryEnd(c) && Spoken(c[end..HistoryEnd(c)]) < preserve
    ensures last < |c| && InOldestTurn(c, last) && Protected(c, last, preserve)
  {
    hide Spoken, HistoryEnd, InOldestTurn, LatestUser, TurnBefore;
    last := LastSpoken(c, start, end);
    InSpan(c, start, end, last);
    SpokenSplit(c, last + 1, end, HistoryEnd(c));
  }

  lemma {:induction false} SpokenSplit(c: Conversation, i: nat, j: nat, e: nat)
    requires i <= j <= e <= |c| && forall k | i <= k < j :: c[k].role.System?
    ensures Spoken(c[i..e]) == Spoken(c[j..e])
    decreases j - i
  {
    if i < j {
      assert c[i..e][1..] == c[i + 1..e];
      SpokenSplit(c, i + 1, j, e);
    }
  }

  lemma SpanOf(c: Conversation) returns (span: (nat, nat))
    requires TurnCount(c) > 0
    ensures TurnSpan(c, span.0, span.1)
  {
    var start := FirstSpoken(c, 0);
    var end := TurnEnd(c, start + 1);
    span := (start, end);
  }

  lemma {:induction false} FirstSpoken(c: Conversation, i: nat) returns (start: nat)
    requires TurnCount(c) > 0 && i <= HistoryEnd(c) && TurnBefore(c, i) == None
    ensures i <= start < HistoryEnd(c) == LatestUser(c) && TurnBefore(c, start) == None && !c[start].role.System?
    decreases HistoryEnd(c) - i
  {
    if c[i].role.System? { start := FirstSpoken(c, i + 1); } else { start := i; }
  }

  lemma {:induction false} TurnEnd(c: Conversation, i: nat) returns (end: nat)
    requires i <= LatestUser(c) < |c| && TurnBefore(c, i) == Some(0)
    ensures i <= end <= LatestUser(c) && (forall k | i <= k <= end :: TurnBefore(c, k) == Some(0))
    ensures end < LatestUser(c) ==> c[end].role.User?
    decreases LatestUser(c) - i
  {
    if i < LatestUser(c) && !c[i].role.User? { end := TurnEnd(c, i + 1); } else { end := i; }
  }

  lemma {:induction false} LastSpoken(c: Conversation, start: nat, end: nat) returns (last: nat)
    requires start < end <= |c| && !c[start].role.System?
    ensures start <= last < end && !c[last].role.System? && forall k | last < k < end :: c[k].role.System?
    decreases end
  {
    if c[end - 1].role.System? { last := LastSpoken(c, start, end - 1); } else { last := end - 1; }
  }

  // ---------------------------------------------------------------- selection

  /** What is removed, by how many turns: at least `k`, as long as enough history is left. */
  function LeastSummary(c: Conversation, estimate: (Conversation, nat) -> nat, limit: int, preserve: nat, k: nat): (r: Option<nat>)
    ensures r.Some? ==> k <= r.value <= TurnCount(c)
    decreases TurnCount(c) + 1 - k
  {
    if k > TurnCount(c) || History(Kept(c, k)) < preserve then None
    else if estimate(Kept(c, k), |Gone(c, k)|) <= limit then Some(k)
    else LeastSummary(c, estimate, limit, preserve, k + 1)
  }

  lemma {:induction false} LeastSummaryIsLeast(c: Conversation, estimate: (Conversation, nat) -> nat, limit: int, preserve: nat, k: nat, j: nat)
    requires k <= j <= TurnCount(c) && History(Kept(c, j)) >= preserve && estimate(Kept(c, j), |Gone(c, j)|) <= limit
    ensures LeastSummary(c, estimate, limit, preserve, k).Some?
    ensures LeastSummary(c, estimate, limit, preserve, k).value <= j
    decreases j - k
  {
    hide Kept, Gone, History, TurnCount;
    HistoryShrinks(c, k, j);
    if k < j { LeastSummaryIsLeast(c, estimate, limit, preserve, k + 1, j); }
  }

  lemma {:induction false} SpokenShrinks(c: Conversation, i: nat, e: nat, k: nat, j: nat)
    requires i <= e <= |c| && k <= j
    ensures Spoken(Keep(c[i..e], TurnBefore(c, i), k)) >= Spoken(Keep(c[i..e], TurnBefore(c, i), j))
    decreases e - i
  {
    if i < e {
      KeepOne(c, i, e, k);
      KeepOne(c, i, e, j);
      SpokenShrinks(c, i + 1, e, k, j);
    } else {
      assert c[i..e] == [];
    }
  }

  lemma HistoryShrinks(c: Conversation, k: nat, j: nat)
    requires k <= j
    ensures History(Kept(c, k)) >= History(Kept(c, j))
  {
    KeptSpoken(c, k);
    KeptSpoken(c, j);
    SpokenShrinks(c, 0, HistoryEnd(c), k, j);
  }

  /** `any(index in protected for index in removable)`. */
  method Touches(removable: seq<nat>, shielded: set<nat>) returns (hit: bool)
    ensures hit <==> exists i | 0 <= i < |removable| :: removable[i] in shielded
  {
    for i := 0 to |removable|
      invariant forall k | 0 <= k < i :: removable[k] !in shielded
    {
      if removable[i] in shielded { return true; }
    }
    return false;
  }

  lemma TouchesIs(c: Conversation, removable: seq<nat>, shielded: set<nat>, preserve: nat)
    requires forall i | 0 <= i < |removable| :: removable[i] < |c|
    requires forall i | 0 <= i < |c| :: i in removable <==> InOldestTurn(c, i)
    requires forall i | 0 <= i < |c| :: i in shielded <==> Protected(c, i, preserve)
    requires TurnCount(c) > 0
    ensures (exists i | 0 <= i < |removable| :: removable[i] in shielded) <==> History(Kept(c, 1)) < preserve
  {
    ProtectionIs(c, preserve);
    if i :| 0 <= i < |c| && InOldestTurn(c, i) && Protected(c, i, preserve) {
      assert i in removable;
    }
    if i :| 0 <= i < |removable| && removable[i] in shielded {
      assert removable[i] in removable;
    }
  }

  /** The list comprehension over the removable indices. */
  method Taken(c: Conversation, removable: seq<nat>) returns (r: Conversation)
    requires forall i | 0 <= i < |c| :: i in removable <==> InOldestTurn(c, i)
    ensures r == Gone(c, 1)
  {
    r := [];
    for i := 0 to |c|
      invariant Gone(c, 1) == r + Select(c, i, 1, false)
    {
      if i in removable { r := r + [c[i]]; }
    }
  }

  /** One round of the loop: takes the oldest turn away, unless there is none or it holds a protected message. */
  method RemoveTurn(c: Conversation, preserve: nat) returns (r: Option<(Conversation, Conversation)>)
    ensures r.None? <==> TurnCount(c) == 0 || History(Kept(c, 1)) < preserve
    ensures r.Some? ==> r.value.0 == Kept(c, 1) && r.value.1 == Gone(c, 1) && r.value.1 != []
  {
    hide Kept, Gone, History, TurnCount, Protected, InOldestTurn;
    var removable := OldestRemovableTurn(c);
    if removable == [] { return None; }
    var shielded := ProtectedIndices(c, preserve);
    TouchesIs(c, removable, shielded, preserve);
    var touched := Touches(removable, shielded);
    if touched { return None; }
    RemovedCount(c, removable);
    var removed := Taken(c, removable);
    var retained := Without(c, removable);
    KeptAndGone(c, 1);
    return Some((retained, removed));
  }

  /** The state of the loop after `k` rounds. */
  ghost predicate Dropped(c: Conversation, k: nat, retained: Conversation, removed: Conversation) {
    k <= TurnCount(c) && retained == Kept(c, k) && removed == Gone(c, k) && (k == 0 <==> removed == [])
  }

  lemma DropOne(c: Conversation, k: nat, retained: Conversation, removed: Conversation)
    requires Dropped(c, k, retained, removed)
    ensures TurnCount(retained) == TurnCount(c) - k
    ensures Gone(retained, 1) != [] && TurnCount(retained) > 0 ==> Dropped(c, k + 1, Kept(retained, 1), removed + Gone(retained, 1))
  {
    KeptTwice(c, k, 1);
    GoneTwice(c, k);
  }

  lemma LeastRound(c: Conversation, estimate: (Conversation, nat) -> nat, limit: int, preserve: nat, k: nat,
                   retained: Conversation, removed: Conversation)
    requires Dropped(c, k, retained, removed) && History(retained) >= preserve
    ensures LeastSummary(c, estimate, limit, preserve, k) ==
      if estimate(retained, |removed|) <= limit then Some(k) else LeastSummary(c, estimate, limit, preserve, k + 1)
    ensures Ok((retained, removed)) == Ok((Kept(c, k), Gone(c, k)))
  {}

  lemma LeastEnds(c: Conversation, estimate: (Conversation, nat) -> nat, limit: int, preserve: nat, k: nat,
                  retained: Conversation, removed: Conversation)
    requires Dropped(c, k, retained, removed) && (TurnCount(retained) == 0 || History(Kept(retained, 1)) < preserve)
    ensures LeastSummary(c, estimate, limit, preserve, k + 1).None?
  {
    KeptTwice(c, k, 1);
  }

  lemma KeptAndGone(c: Conversation, k: nat)
    ensures |Kept(c, k)| + |Gone(c, k)| == |c|
  {
    SelectLengths(c, 0, k);
  }

  /**
   `_select_summary_source`: removes the fewest oldest turns, but at least one, for which the
   estimate fits, and fails when that would touch a protected message or leave no turn to remove.
   */
  method SelectSource(c: Conversation, estimate: (Conversation, nat) -> nat, limit: int, preserve: nat)
    returns (r: Result<(Conversation, Conversation)>)
    ensures match LeastSummary(c, estimate, limit, preserve, 1)
            case None => r == Fail
            case Some(k) => r == Ok((Kept(c, k), Gone(c, k)))
  {
    var retained, removed := c, [];
    ghost var k, least := 0, LeastSummary(c, estimate, limit, preserve, 1);
    SelectAll(c, 0);
    while true
      invariant Dropped(c, k, retained, removed)
      invariant k > 0 ==> History(retained) >= preserve && least == LeastSummary(c, estimate, limit, preserve, k)
      decreases TurnCount(c) - k
    {
      hide *;
      if k > 0 { LeastRound(c, estimate, limit, preserve, k, retained, removed); }
      if removed != [] && estimate(retained, |removed|) <= limit { return Ok((retained, removed)); }
      var round := RemoveTurn(retained, preserve);
      DropOne(c, k, retained, removed);
      if round.None? {
        LeastEnds(c, estimate, limit, preserve, k, retained, removed);
        return Fail;
      }
      retained, removed, k := round.value.0, removed + round.value.1, k + 1;
    }
  }

  // ---------------------------------------------------------------- the protected messages survive

  lemma {:induction false} FewSpokenLeft(c: Conversation, j: nat, i: nat, e: nat, k: nat)
    requires j <= i < e <= |c| && !c[i].role.System? && Turn(c, i).value < k
    ensures Spoken(Keep(c[j..e], TurnBefore(c, j), k)) <= Spoken(c[i + 1..e])
    decreases i - j
  {
    hide Keep, Spoken;
    KeepOne(c, j, e, k);
    TurnsGrow(c, j + 1, i + 1);
    assert TurnBefore(c, j + 1) == Turn(c, j) && TurnBefore(c, i + 1) == Turn(c, i);
    if j < i { FewSpokenLeft(c, j + 1, i, e, k); } else { KeepIsFewer(c[i + 1..e], TurnBefore(c, i + 1), k); }
  }

  lemma {:induction false} KeepIsFewer(h: Conversation, turn: Option<nat>, k: nat)
    ensures Spoken(Keep(h, turn, k)) <= Spoken(h)
  {
    if h != [] {
      var rest := Keep(h[1..], Next(turn, h[0]), k);
      KeepIsFewer(h[1..], Next(turn, h[0]), k);
      assert ([h[0]] + rest)[1..] == rest && [] + rest == rest;
    }
  }

  /** Whatever the estimate, selection takes away whole oldest turns, at least one, and no protected message. */
  lemma ProtectedSurvive(c: Conversation, estimate: (Conversation, nat) -> nat, limit: int, preserve: nat, i: nat)
    requires LeastSummary(c, estimate, limit, preserve, 1).Some? && i < |c|
    requires Protected(c, i, preserve) || c[i].role.System? || i >= HistoryEnd(c)
    ensures Stays(c, i, LeastSummary(c, estimate, limit, preserve, 1).value)
  {
    var k := LeastSummary(c, estimate, limit, preserve, 1).value;
    LeastSummaryFits(c, estimate, limit, preserve, 1);
    if !Stays(c, i, k) {
      KeptSpoken(c, k);
      FewSpokenLeft(c, 0, i, HistoryEnd(c), k);
    }
  }

  lemma {:induction false} LeastSummaryFits(c: Conversation, estimate: (Conversation, nat) -> nat, limit: int, preserve: nat, k: nat)
    requires LeastSummary(c, estimate, limit, preserve, k).Some?
    ensures var r := LeastSummary(c, estimate, limit, preserve, k).value;
      History(Kept(c, r)) >= preserve && estimate(Kept(c, r), |Gone(c, r)|) <= limit
    decreases TurnCount(c) + 1 - k
  {
    if estimate(Kept(c, k), |Gone(c, k)|) > limit { LeastSummaryFits(c, estimate, limit, preserve, k + 1); }
  }

  /**
   Selection succeeds exactly when some number of turns, at least one, leaves enough recent
   history and fits; and then it removes the least such number.
   */
  lemma SelectionIsLeast(c: Conversation, estimate: (Conversation, nat) -> nat, limit: int, preserve: nat)
    ensures LeastSummary(c, estimate, limit, preserve, 1).Some? <==>
      exists j | 1 <= j <= TurnCount(c) :: History(Kept(c, j)) >= preserve && estimate(Kept(c, j), |Gone(c, j)|) <= limit
    ensures forall j | 1 <= j <= TurnCount(c) && History(Kept(c, j)) >= preserve && estimate(Kept(c, j), |Gone(c, j)|) <= limit ::
      LeastSummary(c, estimate, limit, preserve, 1).Some? && LeastSummary(c, estimate, limit, preserve, 1).value <= j
  {
    if LeastSummary(c, estimate, limit, preserve, 1).Some? { LeastSummaryFits(c, estimate, limit, preserve, 1); }
    forall j | 1 <= j <= TurnCount(c) && History(Kept(c, j)) >= preserve && estimate(Kept(c, j), |Gone(c, j)|) <= limit
      ensures LeastSummary(c, estimate, limit, preserve, 1).Some? && LeastSummary(c, estimate, limit, preserve, 1).value <= j
    {
      LeastSummaryIsLeast(c, estimate, limit, preserve, 1, j);
    }
  }
}
