/** What decides a removal: whole runs of the remover, disturbed or not. */
module CleanupRuns {
  import opened Wrappers
  import opened Cleanup
  import opened CleanupProofs

  // ---------------------------------------------------------------- no removal without a decision

  /** A directory disappears in one step only: from under its name, while it is empty, and when the remover has checked it. */
  lemma OnlyEmptyGoes(w: World, a: Action, id: nat)
    requires id in w.disk.dirs && id !in Step(w, a).disk.dirs
    ensures a.Advance? && w.pc.Checked? && w.disk.path == Some(id) && w.disk.dirs[id] == map[]
  {
    match a
    case Touch(_) =>
    case Advance =>
    case _ =>
  }

  lemma RetiringStep(w: World, a: Action)
    requires Step(w, a).retired != w.retired
    ensures a.Advance? && w.pc.Checked?
  {
    match a
    case Touch(_) =>
    case Advance =>
    case _ =>
  }

  /** The remover comes to stand before `rmdir` by the answer that the model is not active, with everything staged. */
  lemma CheckingStep(w: World, a: Action)
    requires Step(w, a).pc.Checked? && Step(w, a).pc != w.pc
    ensures a == Decide(false) && w.pc == Moving(Step(w, a).pc.id, Step(w, a).pc.snap)
    ensures w.disk.stage.Some? && w.disk.stage.value.files.Some? && w.pc.snap.Keys <= w.disk.stage.value.files.value.Keys
  {
    match a
    case Touch(_) =>
    case Advance =>
    case _ =>
  }

  /** From the answer before step `j` up to step `n` the remover has stood before `rmdir`. */
  ghost predicate DecidedAt(w: World, acts: seq<Action>, j: nat, n: nat) {
    && j < n <= |acts| && acts[j] == Decide(false) && Run(w, acts[..j]).pc.Moving?
    && forall k | j < k <= n :: Run(w, acts[..k]).pc == Checked(Run(w, acts[..j]).pc.id, Run(w, acts[..j]).pc.snap)
  }

  lemma RunNext(w: World, acts: seq<Action>, i: nat)
    requires i < |acts|
    ensures Run(w, acts[..i + 1]) == Step(Run(w, acts[..i]), acts[i])
  {
    assert acts[..i + 1] == acts[..i] + [acts[i]];
    RunLast(w, acts[..i], acts[i]);
  }

  lemma {:induction false} CheckedWasDecided(w: World, acts: seq<Action>, n: nat) returns (j: nat)
    requires n <= |acts| && !w.pc.Checked? && Run(w, acts[..n]).pc.Checked?
    ensures DecidedAt(w, acts, j, n)
  {
    hide Step;
    assert n > 0;
    RunNext(w, acts, n - 1);
    var before := Run(w, acts[..n - 1]);
    if before.pc == Run(w, acts[..n]).pc {
      j := CheckedWasDecided(w, acts, n - 1);
    } else {
      CheckingStep(before, acts[n - 1]);
      j := n - 1;
    }
  }

  /**
   In every run, the step that retires a directory follows an answer that the model is not active,
   given to the same removal when everything was staged, and no crash or fault lies in between.
   */
  lemma RemovalWasDecided(tree: Tree, next: nat, acts: seq<Action>, i: nat) returns (j: nat)
    requires i < |acts| && Run(Start(tree, next), acts[..i + 1]).retired != Run(Start(tree, next), acts[..i]).retired
    ensures acts[i].Advance? && DecidedAt(Start(tree, next), acts, j, i)
  {
    RunNext(Start(tree, next), acts, i);
    RetiringStep(Run(Start(tree, next), acts[..i]), acts[i]);
    j := CheckedWasDecided(Start(tree, next), acts, i);
  }

  /** If every look at the links finds the model active, nothing is ever removed. */
  lemma ActiveIsNeverRemoved(tree: Tree, next: nat, acts: seq<Action>)
    requires forall k | 0 <= k < |acts| :: acts[k] != Decide(false)
    ensures Run(Start(tree, next), acts).retired == map[]
  {
    var w := Start(tree, next);
    assert acts[..|acts|] == acts;
    for i := 0 to |acts|
      invariant Run(w, acts[..i]).retired == map[]
    {
      RunNext(w, acts, i);
      if Run(w, acts[..i + 1]).retired != Run(w, acts[..i]).retired {
        var j := RemovalWasDecided(tree, next, acts, i);
      }
    }
  }

  /** A directory that holds a version, that is a subdirectory, is not removed: what was admitted of a retired one are files. */
  lemma VersionsAreNeverRemoved(tree: Tree, next: nat, acts: seq<Action>)
    ensures forall id | id in Run(Start(tree, next), acts).retired :: NoFolder(Run(Start(tree, next), acts).retired[id])
  {
    var w := Start(tree, next);
    assert acts[..|acts|] == acts;
    InvStart(tree, next);
    for i := 0 to |acts|
      invariant RetiredFiles(Run(w, acts[..i]))
    {
      RunNext(w, acts, i);
      InvRun(w, acts[..i]);
      RetiredFilesStep(Run(w, acts[..i]), acts[i]);
    }
  }

  predicate RetiredFiles(w: World) {
    forall id | id in w.retired :: NoFolder(w.retired[id])
  }

  lemma RetiredFilesStep(w: World, a: Action)
    requires Inv(w) && RetiredFiles(w)
    ensures RetiredFiles(Step(w, a))
  {
    if Step(w, a).retired != w.retired { RetiringStep(w, a); }
  }

  // ---------------------------------------------------------------- undisturbed runs

  /** What the remover does on its own, when its look at the links gives this answer. */
  predicate Own(a: Action, active: bool) {
    a.Begin? || a.Advance? || a.Touch? || a.Recover? || a == Decide(active)
  }

  /** The remover with `files` staged and `rest` still in directory `id`. */
  predicate HalfStaged(w: World, id: nat, snap: Tree, files: Tree, rest: Tree) {
    && w.pc == Moving(id, snap)
    && w.disk.stage == Some(Stage(Written(id, snap.Keys), Some(files), false))
    && id in w.disk.dirs && w.disk.dirs[id] == rest && files + rest == snap && files.Keys !! rest.Keys
  }

  lemma StageOne(w: World, id: nat, snap: Tree, files: Tree, rest: Tree, name: Name)
    requires HalfStaged(w, id, snap, files, rest) && NoFolder(snap) && name in rest
    ensures var v := Step(w, Touch(name));
      && HalfStaged(v, id, snap, files[name := rest[name]], rest - {name})
      && v.disk.path == w.disk.path && v.disk.dirs == w.disk.dirs[id := rest - {name}]
  {
    UnionMove(files, rest, name);
    assert rest[name] == snap[name];
  }

  /** These renames bring everything into the stage. */
  ghost predicate StagedBy(w: World, id: nat, snap: Tree, acts: seq<Action>) {
    && (forall a | a in acts :: a.Touch?)
    && var v := Run(w, acts);
    HalfStaged(v, id, snap, snap, map[]) && v.disk.path == w.disk.path && v.disk.dirs == w.disk.dirs[id := map[]]
  }

  lemma AllStaged(w: World, id: nat, snap: Tree, files: Tree)
    requires HalfStaged(w, id, snap, files, map[])
    ensures StagedBy(w, id, snap, [])
  {
    assert files + map[] == files;
    assert w.disk.dirs[id := map[]] == w.disk.dirs;
    assert Run(w, []) == w;
  }

  lemma OneMoreStaged(w: World, v: World, id: nat, snap: Tree, name: Name, left: Tree, more: seq<Action>)
    requires v == Step(w, Touch(name)) && StagedBy(v, id, snap, more)
    requires v.disk.path == w.disk.path && v.disk.dirs == w.disk.dirs[id := left]
    ensures StagedBy(w, id, snap, [Touch(name)] + more)
  {
    hide HalfStaged, Step, Run;
    RunTwo(w, Touch(name), more);
    assert w.disk.dirs[id := left][id := map[]] == w.disk.dirs[id := map[]];
  }

  lemma {:induction false} StageRest(w: World, id: nat, snap: Tree, files: Tree, rest: Tree) returns (acts: seq<Action>)
    requires HalfStaged(w, id, snap, files, rest) && NoFolder(snap)
    ensures StagedBy(w, id, snap, acts)
    decreases |rest.Keys|
  {
    hide *;
    if rest == map[] {
      acts := [];
      AllStaged(w, id, snap, files);
    } else {
      var name := AnyName(rest);
      var v, left := Step(w, Touch(name)), rest - {name};
      ShrinkKeys(rest, name, {});
      StageOne(w, id, snap, files, rest, name);
      var more := StageRest(v, id, snap, files[name := rest[name]], left);
      OneMoreStaged(w, v, id, snap, name, left, more);
      acts := [Touch(name)] + more;
    }
  }

  /** The steps from an idle remover to the first rename. */
  lemma Prepare(w: World, id: nat)
    requires w.pc.Idle? && w.disk.stage.None? && w.disk.path == Some(id) && id in w.disk.dirs && NoFolder(w.disk.dirs[id])
    ensures var v := Run(w, [Begin, Advance, Advance, Advance, Advance, Advance, Advance]);
      && HalfStaged(v, id, w.disk.dirs[id], map[], w.disk.dirs[id])
      && v.disk.path == w.disk.path && v.disk.dirs == w.disk.dirs
  {
    var snap := w.disk.dirs[id];
    var none: Tree := map[];
    assert none + snap == snap;
    var a := Advance;
    var w1 := w.(pc := Listed(id, snap));
    var w2 := w.(pc := Admitted(id, snap));
    var w3 := WithStage(w, Some(Stage(Absent, None, false)), StageMade(id, snap));
    var w4 := WithStage(w, Some(Stage(Absent, Some(map[]), false)), FilesMade(id, snap));
    var w5 := WithStage(w, Some(Stage(Torn, Some(map[]), false)), JournalOpen(id, snap));
    var w6 := WithStage(w, Some(Stage(Written(id, snap.Keys), Some(map[]), false)), JournalSaved(id, snap));
    assert Step(w, Begin) == w1 && Step(w1, a) == w2 && Step(w2, a) == w3 && Step(w3, a) == w4 && Step(w4, a) == w5 && Step(w5, a) == w6;
    var w7 := w6.(pc := Moving(id, snap));
    assert Step(w6, a) == w7;
    hide Step;
    SixMore(w1, w2, w3, w4, w5, w6, w7);
    var acts := [Begin, a, a, a, a, a, a];
    assert acts[1..] == [a, a, a, a, a, a];
  }

  lemma SixMore(w1: World, w2: World, w3: World, w4: World, w5: World, w6: World, w7: World)
    requires Step(w1, Advance) == w2 && Step(w2, Advance) == w3 && Step(w3, Advance) == w4
    requires Step(w4, Advance) == w5 && Step(w5, Advance) == w6 && Step(w6, Advance) == w7
    ensures Run(w1, [Advance, Advance, Advance, Advance, Advance, Advance]) == w7
  {
    hide Step;
    var a := Advance;
    RunOne(w6, a);
    RunTwo(w5, a, [a]);
    RunTwo(w4, a, [a, a]);
    RunTwo(w3, a, [a, a, a]);
    RunTwo(w2, a, [a, a, a, a]);
    RunTwo(w1, a, [a, a, a, a, a]);
  }

  lemma RunTwo(w: World, a: Action, rest: seq<Action>)
    ensures Run(w, [a] + rest) == Run(Step(w, a), rest)
  {
    assert ([a] + rest)[1..] == rest;
  }

  /** Everything is staged, and the look at the links decides. */
  lemma Finish(w: World, id: nat, snap: Tree, active: bool) returns (acts: seq<Action>)
    requires HalfStaged(w, id, snap, snap, map[]) && NoFolder(snap) && w.disk.path == Some(id)
    ensures forall a | a in acts :: Own(a, active)
    ensures Run(w, acts).disk ==
      if active then Disk(w.disk.path, w.disk.dirs[id := snap], None) else Disk(None, w.disk.dirs - {id}, None)
  {
    var v := Step(w, Decide(active));
    var first := [Decide(active)];
    RunOne(w, Decide(active));
    if !active {
      var gone := Step(v, Advance);
      assert gone.pc.Emptied? && gone.disk.path.None? && gone.disk.dirs == w.disk.dirs - {id};
      v := Step(gone, Advance);
      first := [Decide(active), Advance, Advance];
      RunThree(w, Decide(active), Advance, Advance);
    }
    StageClear(v, snap);
    assert v.pc.Recovering? && Run(w, first) == v;
    var rest := RecoveryFinishes(v);
    acts := first + rest;
    RunAppend(w, first, rest);
    SettledFrom(v, id, snap);
  }

  lemma RunThree(w: World, a: Action, b: Action, c: Action)
    ensures Run(w, [a, b, c]) == Step(Step(Step(w, a), b), c)
  {
    hide Step;
    RunOne(Step(Step(w, a), b), c);
    RunTwo(Step(w, a), b, [c]);
    RunTwo(w, a, [b, c]);
    assert [b] + [c] == [b, c] && [a] + [b, c] == [a, b, c];
  }

  lemma StageClear(v: World, snap: Tree)
    requires v.disk.stage.Some? && v.disk.stage.value.files == Some(snap) && NoFolder(snap) && v.pc.Recovering?
    requires v.disk.stage.value.journal.Written? && v.disk.stage.value.journal.names == snap.Keys
    requires v.disk.path.Some? ==> v.disk.path == Some(v.disk.stage.value.journal.checkout) && v.disk.path.value in v.disk.dirs
    ensures Recoverable(v)
  {}

  /** Where that leads: back into the directory that is still there, or nowhere. */
  lemma SettledFrom(v: World, id: nat, snap: Tree)
    requires v.disk.stage.Some? && v.disk.stage.value.files == Some(snap)
    requires v.disk.path.Some? ==> v.disk.path == Some(id) && id in v.disk.dirs && v.disk.dirs[id] == map[] && !v.disk.stage.value.marker
    ensures Settled(v.disk) == v.disk.(stage := None, dirs := if v.disk.path.None? then v.disk.dirs else v.disk.dirs[id := snap])
  {
    var none: Tree := map[];
    assert snap + none == snap;
    if v.disk.path.Some? { SettledAtHome(v.disk, snap); }
  }

  /**
   Left alone, the remover has a run from every idle state in which the checkout holds files only:
   with a model that is not active to the disk without the checkout, and with an active one back
   to the disk it started from. These are the disks that the undisturbed routine promises.
   */
  lemma UndisturbedRun(w: World, id: nat, active: bool) returns (acts: seq<Action>)
    requires w.pc.Idle? && w.disk.stage.None? && w.disk.path == Some(id) && id in w.disk.dirs
    requires forall n | n in w.disk.dirs[id] :: w.disk.dirs[id][n].File?
    ensures forall a | a in acts :: Own(a, active)
    ensures Run(w, acts).disk == if active then w.disk else Disk(None, w.disk.dirs - {id}, None)
  {
    var snap := w.disk.dirs[id];
    var first := [Begin, Advance, Advance, Advance, Advance, Advance, Advance];
    Prepare(w, id);
    var u := Run(w, first);
    var moves := StageRest(u, id, snap, map[], snap);
    var v := Run(u, moves);
    RunAppend(w, first, moves);
    var last := Finish(v, id, snap, active);
    RunAppend(w, first + moves, last);
    acts := first + moves + last;
    assert w.disk.dirs[id := map[]][id := snap] == w.disk.dirs;
    assert w.disk.dirs[id := map[]] - {id} == w.disk.dirs - {id};
  }

  // ---------------------------------------------------------------- giving up before anything has moved

  /** A failure before the journal counts leaves no trace: the stage is taken apart, and no directory has changed. */
  lemma FailureLeavesNoTrace(w: World) returns (acts: seq<Action>)
    requires Inv(w) && (w.pc.StageMade? || w.pc.FilesMade? || w.pc.JournalOpen? || w.pc.JournalSaved?)
    ensures forall a | a in acts :: a.Advance?
    ensures var v := Run(w, [Fault] + acts); v.pc.Idle? && v.disk == w.disk.(stage := None)
  {
    var v := Step(w, Fault);
    acts := Undo(v);
    RunTwo(w, Fault, acts);
  }

  lemma {:induction false} Undo(w: World) returns (acts: seq<Action>)
    requires w.pc.Discarding? && w.disk.stage.Some? && NothingStaged(w.disk.stage.value)
    ensures forall a | a in acts :: a.Advance?
    ensures var v := Run(w, acts); v.pc.Idle? && v.disk == w.disk.(stage := None)
    decreases if w.disk.stage.value.journal.Absent? then 0 else 1, if w.disk.stage.value.files.None? then 0 else 1
  {
    var v := Step(w, Advance);
    RunOne(w, Advance);
    if v.disk.stage.None? {
      acts := [Advance];
    } else {
      var more := Undo(v);
      acts := [Advance] + more;
      RunTwo(w, Advance, more);
    }
  }

  /** A failure behind the journal leads to recovery, and that to the disk it would have come to from there. */
  lemma FailurePutsBack(w: World) returns (acts: seq<Action>)
    requires Inv(w) && (w.pc.Moving? || w.pc.Checked? || w.pc.Emptied?) && Clear(w.disk)
    ensures forall a | a in acts :: a.Recover? || a.Advance? || a.Touch?
    ensures Run(w, [Fault] + acts).disk == Settled(w.disk)
  {
    var v := Step(w, Fault);
    hide Inv, Settled, Clear;
    StageThere(w);
    acts := RecoveryFinishes(v);
    RunTwo(w, Fault, acts);
  }

  lemma StageThere(w: World)
    requires Inv(w) && (w.pc.Moving? || w.pc.Checked? || w.pc.Emptied?)
    ensures w.disk.stage.Some?
  {}

  /** Once `rmdir` has succeeded the removal can be completed, even if the checkout has been made anew meanwhile. */
  lemma RemovalCompletes(w: World) returns (acts: seq<Action>)
    requires Inv(w) && w.pc.Emptied? && (w.disk.path.Some? ==> w.disk.path.value in w.disk.dirs)
    ensures forall a | a in acts :: a.Recover? || a.Advance? || a.Touch?
    ensures Run(w, [Advance] + acts).disk == w.disk.(stage := None)
  {
    var v := Step(w, Advance);
    MarkedIsClear(w);
    hide Inv, Settled, Recoverable;
    acts := RecoveryFinishes(v);
    RunTwo(w, Advance, acts);
  }

  lemma MarkedIsClear(w: World)
    requires Inv(w) && w.pc.Emptied? && (w.disk.path.Some? ==> w.disk.path.value in w.disk.dirs)
    ensures var v := Step(w, Advance); Recoverable(v) && v.disk.stage.Some? && Settled(v.disk) == w.disk.(stage := None)
  {}

  // ---------------------------------------------------------------- left alone, it comes to its end

  /** The remover's and the recovery's own actions, whatever the links say. */
  predicate OwnAction(a: Action) {
    a.Advance? || a.Touch? || a.Recover? || a.Decide?
  }

  predicate Standing(w: World) {
    && (w.pc.Recovering? ==> w.disk.stage.Some?)
    && (w.pc.Linked? ==> w.disk.stage.Some? && w.disk.stage.value.files.Some? && w.pc.name in w.disk.stage.value.files.value)
  }

  lemma StandingTouch(w: World, name: Name)
    requires AtPc(w) && Standing(w)
    ensures Standing(Touched(w, name))
  {}

  lemma StandingAdvance(w: World)
    requires AtPc(w) && Standing(w)
    ensures Standing(Advanced(w))
  {}

  lemma StandingStep(w: World, a: Action)
    requires AtPc(w) && Standing(w)
    ensures Standing(Step(w, a))
  {
    if a.Advance? {
      hide Advanced, AtPc, Standing;
      StandingAdvance(w);
    } else if a.Touch? {
      hide Touched, AtPc, Standing;
      StandingTouch(w, a.name);
    } else {
      hide Advanced, Touched;
    }
  }

  lemma {:induction false} StandingRun(w: World, acts: seq<Action>)
    requires Inv(w) && Standing(w)
    ensures Inv(Run(w, acts)) && Standing(Run(w, acts))
    decreases |acts|
  {
    if acts != [] {
      var v := Step(w, acts[0]);
      StandsAt(w);
      StandingStep(w, acts[0]);
      InvStep(w, acts[0]);
      hide Inv, Standing, Step;
      StandingRun(v, acts[1..]);
    }
  }

  function Phase(pc: Pc): nat {
    match pc
    case Listed(_, _) => 12
    case Admitted(_, _) => 11
    case StageMade(_, _) => 10
    case FilesMade(_, _) => 9
    case JournalOpen(_, _) => 8
    case JournalSaved(_, _) => 7
    case Moving(_, _) => 6
    case Checked(_, _) => 5
    case Emptied(_, _) => 4
    case Recovering => 3
    case Restoring(_, _) => 2
    case Linked(_, _) => 2
    case Idle => 0
    case _ => 1
  }

  function StagedNames(d: Disk): set<Name> {
    if d.stage.Some? && d.stage.value.files.Some? then d.stage.value.files.value.Keys else {}
  }

  function Parts(d: Disk): nat {
    if d.stage.None? then 0 else
      (if d.stage.value.files.Some? then 1 else 0) + (if d.stage.value.journal.Absent? then 0 else 1)
      + (if d.stage.value.marker then 1 else 0)
  }

  /** What is left to do in a phase. */
  function Rest(w: World): nat {
    match w.pc
    case Moving(_, snap) => |snap.Keys - StagedNames(w.disk)|
    case Restoring(_, _) => 2 * |StagedNames(w.disk)|
    case Linked(_, _) => 2 * |StagedNames(w.disk)| - (if StagedNames(w.disk) == {} then 0 else 1)
    case _ => Parts(w.disk)
  }

  predicate Nearer(w: World, v: World) {
    Phase(v.pc) < Phase(w.pc) || (Phase(v.pc) == Phase(w.pc) && Rest(v) < Rest(w))
  }

  lemma MoreStaged(snap: set<Name>, staged: set<Name>, name: Name)
    requires name in snap && name !in staged
    ensures |snap - (staged + {name})| < |snap - staged|
  {
    assert snap - staged == (snap - (staged + {name})) + {name};
  }

  lemma StandsAt(w: World)
    requires Inv(w)
    ensures AtPc(w)
  {}

  lemma MovedStands(w: World, name: Name)
    requires AtPc(w) && w.pc.Moving? && name in w.pc.snap && name !in w.disk.stage.value.files.value
    ensures var v := Step(w, Touch(name));
      v.pc.Recovering? || (v.pc == w.pc && StagedNames(v.disk) == StagedNames(w.disk) + {name})
    ensures StagedNames(w.disk) == w.disk.stage.value.files.value.Keys
  {}

  lemma NearerByOne(w: World, v: World, name: Name)
    requires w.pc.Moving? && name in w.pc.snap.Keys && name !in StagedNames(w.disk)
    requires v.pc.Recovering? || (v.pc == w.pc && StagedNames(v.disk) == StagedNames(w.disk) + {name})
    ensures Nearer(w, v)
  {
    hide StagedNames;
    MoreStaged(w.pc.snap.Keys, StagedNames(w.disk), name);
  }

  lemma MoveOne(w: World, name: Name)
    requires AtPc(w) && w.pc.Moving? && name in w.pc.snap && name !in w.disk.stage.value.files.value
    ensures Nearer(w, Step(w, Touch(name)))
  {
    MovedStands(w, name);
    hide *;
    NearerByOne(w, Step(w, Touch(name)), name);
  }

  lemma MovedAll(w: World)
    requires AtPc(w) && w.pc.Moving? && w.pc.snap.Keys <= w.disk.stage.value.files.value.Keys
    ensures Nearer(w, Step(w, Decide(true)))
  {
    hide Rest;
  }

  lemma MovingOn(w: World) returns (a: Action)
    requires AtPc(w) && w.pc.Moving?
    ensures OwnAction(a) && Nearer(w, Step(w, a))
  {
    assert w.disk.stage.Some? && w.disk.stage.value.files.Some?;
    hide AtPc, Nearer, Step;
    if w.pc.snap.Keys <= w.disk.stage.value.files.value.Keys {
      a := Decide(true);
      MovedAll(w);
    } else {
      var name :| name in w.pc.snap.Keys && name !in w.disk.stage.value.files.value.Keys;
      a := Touch(name);
      MoveOne(w, name);
    }
  }

  lemma FewerStaged(files: Tree, name: Name)
    requires name in files
    ensures |(files - {name}).Keys| < |files.Keys|
  {
    assert (files - {name}).Keys == files.Keys - {name};
  }

  lemma UnlinkingOn(w: World)
    requires AtPc(w) && Standing(w) && w.pc.Linked?
    ensures Nearer(w, Step(w, Touch(w.pc.name)))
  {
    FewerStaged(w.disk.stage.value.files.value, w.pc.name);
    assert w.pc.name in StagedNames(w.disk);
    var v := Unlinked(w, w.pc.id, w.disk.stage.value, w.pc.name);
    assert StagedNames(v.disk) == (w.disk.stage.value.files.value - {w.pc.name}).Keys;
    hide StagedNames, AtPc;
  }

  lemma RestoringOne(w: World, name: Name)
    requires AtPc(w) && w.pc.Restoring? && name in w.disk.stage.value.files.value
    ensures Nearer(w, Step(w, Touch(name)))
  {
    var files := w.disk.stage.value.files.value;
    FewerStaged(files, name);
    assert name in StagedNames(w.disk) && StagedNames(w.disk) == files.Keys;
    var v := Restored(w, w.pc.gone, w.pc.id, w.disk.stage.value, name);
    assert v.pc.Linked? ==> StagedNames(v.disk) == files.Keys;
    assert v.pc.Restoring? ==> StagedNames(v.disk) == (files - {name}).Keys;
    hide StagedNames, AtPc;
  }

  lemma RestoredAll(w: World)
    requires AtPc(w) && w.pc.Restoring? && w.disk.stage.value.files.value == map[]
    ensures Nearer(w, Step(w, Advance))
  {
    hide Rest;
  }

  lemma RestoringOn(w: World) returns (a: Action)
    requires AtPc(w) && Standing(w) && (w.pc.Restoring? || w.pc.Linked?)
    ensures OwnAction(a) && Nearer(w, Step(w, a))
  {
    assert w.disk.stage.Some? && w.disk.stage.value.files.Some?;
    hide Nearer, Step, AtPc, Standing;
    if w.pc.Linked? {
      a := Touch(w.pc.name);
      UnlinkingOn(w);
    } else if w.disk.stage.value.files.value == map[] {
      a := Advance;
      RestoredAll(w);
    } else {
      var name :| name in w.disk.stage.value.files.value;
      a := Touch(name);
      RestoringOne(w, name);
    }
  }

  lemma PreparingOn(w: World)
    requires AtPc(w) && 7 <= Phase(w.pc)
    ensures Nearer(w, Step(w, Advance))
  {
    hide Rest;
  }

  lemma RemovingOn(w: World)
    requires AtPc(w) && (w.pc.Checked? || w.pc.Emptied?)
    ensures Nearer(w, Step(w, Advance))
  {
    hide Rest;
  }

  lemma RecoveryOn(w: World)
    requires Standing(w) && w.pc.Recovering?
    ensures Nearer(w, Step(w, Recover))
  {
    hide Rest;
  }

  lemma ClearingOn(w: World)
    requires AtPc(w) && (w.pc.Discarding? || w.pc.Sweeping? || w.pc.Closing?)
    ensures Nearer(w, Step(w, Advance))
  {}

  lemma StraightOn(w: World) returns (a: Action)
    requires AtPc(w) && Standing(w) && !w.pc.Idle? && !w.pc.Moving? && !w.pc.Restoring? && !w.pc.Linked?
    ensures OwnAction(a) && Nearer(w, Step(w, a))
  {
    hide AtPc, Standing, Nearer, Step;
    a := if w.pc.Recovering? then Recover else Advance;
    if w.pc.Recovering? { RecoveryOn(w); }
    else if w.pc.Checked? || w.pc.Emptied? { RemovingOn(w); }
    else if w.pc.Discarding? || w.pc.Sweeping? || w.pc.Closing? { ClearingOn(w); }
    else { PreparingOn(w); }
  }

  lemma {:induction false} ComesToRest(w: World) returns (more: seq<Action>)
    requires Inv(w) && Standing(w)
    ensures (forall a | a in more :: OwnAction(a)) && Run(w, more).pc.Idle?
    decreases Phase(w.pc), Rest(w)
  {
    more := [];
    if !w.pc.Idle? {
      StandsAt(w);
      var a;
      if w.pc.Moving? { a := MovingOn(w); }
      else if w.pc.Restoring? || w.pc.Linked? { a := RestoringOn(w); }
      else { a := StraightOn(w); }
      InvStep(w, a);
      StandingStep(w, a);
      hide Inv, Standing, Step, OwnAction;
      var rest := ComesToRest(Step(w, a));
      more := [a] + rest;
      RunTwo(w, a, rest);
    }
  }

  /** From every state of every run the remover, or a recovery, comes to its end if it is left alone. */
  lemma RemoverComesToRest(tree: Tree, next: nat, acts: seq<Action>) returns (more: seq<Action>)
    ensures (forall a | a in more :: OwnAction(a)) && Run(Run(Start(tree, next), acts), more).pc.Idle?
  {
    InvStart(tree, next);
    StandingRun(Start(tree, next), acts);
    more := ComesToRest(Run(Start(tree, next), acts));
  }

  // ---------------------------------------------------------------- what recovery must not touch

  /** Files are staged, and their journal is no journal, is about another directory, does not list them all, or one is a directory. */
  predicate Doubtful(d: Disk) {
    && d.stage.Some? && d.stage.value.files.Some? && d.stage.value.files.value != map[]
    && var s := d.stage.value;
    || s.journal.Absent? || s.journal.Torn? || s.journal.Foreign?
    || (!s.marker && d.path.Some? && d.path.value != s.journal.checkout)
    || (exists n | n in s.files.value :: n !in s.journal.names || s.files.value[n].Folder?)
  }

  /** Then no recovery changes anything, whatever crashes and restarts it goes through. */
  lemma {:induction false} DoubtfulStays(w: World, acts: seq<Action>)
    requires Doubtful(w.disk) && (w.pc.Idle? || w.pc.Recovering?) && forall a | a in acts :: Quiet(a)
    ensures Run(w, acts).disk == w.disk
    decreases |acts|
  {
    if acts != [] {
      DoubtfulStep(w, acts[0]);
      DoubtfulStays(Step(w, acts[0]), acts[1..]);
    }
  }

  lemma DoubtfulStep(w: World, a: Action)
    requires Doubtful(w.disk) && (w.pc.Idle? || w.pc.Recovering?) && Quiet(a)
    ensures var v := Step(w, a); v.disk == w.disk && (v.pc.Idle? || v.pc.Recovering?)
  {}
}
