/** What every run of the checkout removal keeps, and where every recovery ends. */
module CleanupProofs {
  import opened Wrappers
  import opened Cleanup

  // ---------------------------------------------------------------- safety

  /** The files of directory `id` that currently sit in the stage. */
  function Staged(d: Disk, id: nat): Tree {
    if d.stage.Some? && d.stage.value.files.Some? && d.stage.value.journal.Written?
       && d.stage.value.journal.checkout == id
    then d.stage.value.files.value else map[]
  }

  /** The checkout's name leads to a live directory, if anywhere; others may have been moved away. */
  predicate Rooted(w: World) {
    && (w.disk.path.Some? ==> w.disk.path.value in w.disk.dirs)
    && w.written.Keys == w.disk.dirs.Keys + w.retired.Keys
    && w.disk.dirs.Keys !! w.retired.Keys
    && (forall id | id in w.written :: id < w.next)
  }

  /**
   Nothing a producer wrote is lost: a live directory together with its staged files, the
   directory winning, is exactly what it would be without the cleanup; and a directory is
   removed only while its content is exactly what was admitted of it.
   */
  predicate Faithful(w: World) {
    && (forall id | id in w.disk.dirs :: id in w.written && Staged(w.disk, id) + w.disk.dirs[id] == w.written[id])
    && (forall id | id in w.retired :: id in w.written && w.written[id] == w.retired[id])
  }

  /** Files are staged only under a complete journal that names them. */
  predicate Journalled(w: World) {
    w.disk.stage.Some? && !NothingStaged(w.disk.stage.value) ==>
      var s := w.disk.stage.value;
      s.journal.Written? && s.files.value.Keys <= s.journal.names && s.journal.checkout in w.written
  }

  predicate NoFolder(t: Tree) {
    forall n | n in t :: t[n].File?
  }

  /** The stage as it stands while the remover prepares it. */
  predicate Holds(w: World, id: nat, snap: Tree, stage: Option<Stage>) {
    && w.disk.stage == stage
    && id in w.disk.dirs
    && NoFolder(snap)
    && snap.Keys <= w.disk.dirs[id].Keys
  }

  predicate Staging(w: World, id: nat, snap: Tree) {
    && w.disk.stage.Some?
    && var s := w.disk.stage.value;
    && s.journal == Written(id, snap.Keys) && s.files.Some? && !s.marker
    && NoFolder(snap)
    && (forall n | n in s.files.value :: n in snap && s.files.value[n] == snap[n])
  }

  /** What the remover may rely on at its program counter. */
  predicate AtPc(w: World) {
    match w.pc
    case Listed(id, snap) => Holds(w, id, snap, None)
    case Admitted(id, snap) => Holds(w, id, snap, None)
    case StageMade(id, snap) => Holds(w, id, snap, Some(Stage(Absent, None, false)))
    case FilesMade(id, snap) => Holds(w, id, snap, Some(Stage(Absent, Some(map[]), false)))
    case JournalOpen(id, snap) => Holds(w, id, snap, Some(Stage(Torn, Some(map[]), false)))
    case JournalSaved(id, snap) => Holds(w, id, snap, Some(Stage(Written(id, snap.Keys), Some(map[]), false)))
    case Moving(id, snap) => id in w.disk.dirs && Staging(w, id, snap)
    case Checked(id, snap) =>
      id in w.disk.dirs && Staging(w, id, snap) && w.disk.stage.value.files.value == snap
    case Emptied(id, snap) => id in w.written && Staging(w, id, snap)
    case Discarding => w.disk.stage.Some? ==> NothingStaged(w.disk.stage.value)
    case Sweeping => w.disk.stage.Some? && NothingStaged(w.disk.stage.value)
    case Restoring(gone, id) =>
      && w.disk.stage.Some? && w.disk.stage.value.files.Some?
      && (!NothingStaged(w.disk.stage.value) ==> w.disk.stage.value.journal.Written? && w.disk.stage.value.journal.checkout == id)
      && id in w.written && (!gone ==> id in w.disk.dirs)
    case Linked(id, name) =>
      && w.disk.stage.Some? && w.disk.stage.value.files.Some?
      && w.disk.stage.value.journal.Written? && w.disk.stage.value.journal.checkout == id
      && id in w.disk.dirs && name in w.disk.dirs[id]
    case Closing => w.disk.stage.Some? && NothingStaged(w.disk.stage.value)
    case Idle => true
    case Recovering => true
  }

  predicate Inv(w: World) {
    Rooted(w) && Journalled(w) && AtPc(w)
  }

  predicate Keeps(w: World, v: World) {
    Inv(v) && (Faithful(w) ==> Faithful(v))
  }

  /** The step drops the only copy of a file: the stage's, of a directory that lives and does not have that name. */
  predicate Loses(w: World, a: Action) {
    && a.Touch? && w.pc.Restoring? && w.pc.gone
    && w.disk.stage.Some? && w.disk.stage.value.files.Some? && a.name in w.disk.stage.value.files.value
    && w.pc.id in w.disk.dirs && a.name !in w.disk.dirs[w.pc.id]
  }

  // Four ways in which staged files and a directory trade an entry.

  lemma UnionUpdate(a: Tree, b: Tree, n: Name, e: Entry)
    ensures a + b[n := e] == (a + b)[n := e]
  {}

  lemma UnionMove(a: Tree, b: Tree, n: Name)
    requires n in b
    ensures a[n := b[n]] + (b - {n}) == a + b
  {}

  lemma UnionLink(a: Tree, b: Tree, n: Name)
    requires n in a && n !in b
    ensures a + b[n := a[n]] == a + b
  {}

  lemma UnionUnlink(a: Tree, b: Tree, n: Name)
    requires n in b
    ensures (a - {n}) + b == a + b
  {}

  /** Entries and directories may be added while the remover stands where it stands. */
  lemma AtPcLater(w: World, v: World)
    requires AtPc(w) && v.pc == w.pc && v.disk.stage == w.disk.stage && w.written.Keys <= v.written.Keys
    requires forall id | id in w.disk.dirs :: id in v.disk.dirs && w.disk.dirs[id].Keys <= v.disk.dirs[id].Keys
    ensures AtPc(v)
  {}

  /** What changes in one directory concerns the others not. */
  lemma FaithfulElse(w: World, v: World, x: nat)
    requires Faithful(w) && v.retired == w.retired && x !in v.retired
    requires forall id | id in w.written && id != x :: id in v.written && v.written[id] == w.written[id]
    requires forall id | id in v.disk.dirs && id != x ::
      id in w.disk.dirs && v.disk.dirs[id] == w.disk.dirs[id] && Staged(v.disk, id) == Staged(w.disk, id)
    requires x in v.disk.dirs ==> x in v.written && Staged(v.disk, x) + v.disk.dirs[x] == v.written[x]
    ensures Faithful(v)
  {}

  lemma FaithfulProduce(w: World, dir: nat, name: Name, folder: bool)
    requires Rooted(w) && Faithful(w)
    ensures Faithful(Produced(w, dir, name, folder))
  {
    if dir in w.disk.dirs {
      var v := Produced(w, dir, name, folder);
      var e := if folder then Folder(w.next) else File(w.next);
      assert forall id :: Staged(v.disk, id) == Staged(w.disk, id);
      UnionUpdate(Staged(w.disk, dir), w.disk.dirs[dir], name, e);
      hide Faithful, Staged;
      assert Staged(w.disk, dir) + w.disk.dirs[dir] == w.written[dir] by { FaithfulAt(w, dir); }
      FaithfulElse(w, v, dir);
    }
  }

  lemma FaithfulAt(w: World, id: nat)
    requires Faithful(w) && id in w.disk.dirs
    ensures id in w.written && Staged(w.disk, id) + w.disk.dirs[id] == w.written[id]
  {}

  lemma InvProduce(w: World, dir: nat, name: Name, folder: bool)
    requires Inv(w)
    ensures Keeps(w, Produced(w, dir, name, folder))
  {
    var v := Produced(w, dir, name, folder);
    if dir in w.disk.dirs {
      hide AtPc, Faithful;
      assert v.disk.dirs.Keys == w.disk.dirs.Keys && v.written.Keys == w.written.Keys;
      AtPcLater(w, v);
      if Faithful(w) { FaithfulProduce(w, dir, name, folder); }
    }
  }

  lemma FaithfulMoved(w: World, name: Name)
    requires Inv(w) && Faithful(w) && w.pc.Moving?
    ensures Faithful(Moved(w, w.pc.id, w.pc.snap, w.disk.stage.value, name))
  {
    var id, snap, s := w.pc.id, w.pc.snap, w.disk.stage.value;
    var v := Moved(w, id, snap, s, name);
    if name !in s.files.value && name in snap && name in w.disk.dirs[id] {
      UnionMove(s.files.value, w.disk.dirs[id], name);
      FaithfulAt(w, id);
      assert Staged(v.disk, id) == s.files.value[name := w.disk.dirs[id][name]];
      assert Staged(w.disk, id) == s.files.value;
      assert forall d | d != id :: Staged(v.disk, d) == Staged(w.disk, d);
      hide Faithful, Staged;
      FaithfulElse(w, v, id);
    }
  }

  lemma InvMoved(w: World, name: Name)
    requires Inv(w) && w.pc.Moving?
    ensures Keeps(w, Moved(w, w.pc.id, w.pc.snap, w.disk.stage.value, name))
  {
    var id, snap, s := w.pc.id, w.pc.snap, w.disk.stage.value;
    var v := Moved(w, id, snap, s, name);
    if Faithful(w) { FaithfulMoved(w, name); }
    hide Faithful;
    if name !in s.files.value && name in snap && name in w.disk.dirs[id] {
      assert v.disk.dirs.Keys == w.disk.dirs.Keys;
      MovedStage(w, name);
    }
  }

  lemma MovedStage(w: World, name: Name)
    requires Inv(w) && w.pc.Moving?
    ensures var v := Moved(w, w.pc.id, w.pc.snap, w.disk.stage.value, name); Journalled(v) && AtPc(v)
  {
    assert w.pc.id in w.written;
    hide Rooted;
  }

  /** A file may be taken out of the stage when its directory is gone or has that name. */
  lemma InvTaken(w: World, name: Name, pc: Pc)
    requires Inv(w) && w.disk.stage.Some? && w.disk.stage.value.files.Some? && w.disk.stage.value.journal.Written?
    requires var id := w.disk.stage.value.journal.checkout; id in w.disk.dirs ==> name in w.disk.dirs[id]
    ensures var s := w.disk.stage.value;
      var v := WithStage(w, Some(s.(files := Some(s.files.value - {name}))), pc);
      Rooted(v) && Journalled(v) && (Faithful(w) ==> Faithful(v))
  {
    var s := w.disk.stage.value;
    var v := WithStage(w, Some(s.(files := Some(s.files.value - {name}))), pc);
    forall id | id in w.disk.dirs ensures Staged(v.disk, id) + v.disk.dirs[id] == Staged(w.disk, id) + w.disk.dirs[id] {
      if id == s.journal.checkout { UnionUnlink(s.files.value, w.disk.dirs[id], name); }
    }
  }

  lemma InvDropped(w: World, name: Name)
    requires Inv(w) && w.pc.Restoring? && w.pc.gone
    ensures Inv(Restored(w, true, w.pc.id, w.disk.stage.value, name))
    ensures !Loses(w, Touch(name)) ==> Keeps(w, Restored(w, true, w.pc.id, w.disk.stage.value, name))
  {
    if name in w.disk.stage.value.files.value && !Loses(w, Touch(name)) { InvTaken(w, name, w.pc); }
  }

  lemma InvLinked(w: World, name: Name)
    requires Inv(w) && w.pc.Restoring? && !w.pc.gone
    ensures Keeps(w, Restored(w, false, w.pc.id, w.disk.stage.value, name))
  {
    if name in w.disk.stage.value.files.value {
      if Faithful(w) { FaithfulLinked(w, name); }
      RootedLinked(w, name);
      hide Rooted, Faithful, Journalled, Restored;
    }
  }

  lemma RootedLinked(w: World, name: Name)
    requires Inv(w) && w.pc.Restoring? && !w.pc.gone && name in w.disk.stage.value.files.value
    ensures var v := Restored(w, false, w.pc.id, w.disk.stage.value, name); Rooted(v) && Journalled(v) && AtPc(v)
  {
    assert Restored(w, false, w.pc.id, w.disk.stage.value, name).disk.dirs.Keys == w.disk.dirs.Keys;
  }

  lemma FaithfulLinked(w: World, name: Name)
    requires Inv(w) && Faithful(w) && w.pc.Restoring? && !w.pc.gone && name in w.disk.stage.value.files.value
    ensures Faithful(Restored(w, false, w.pc.id, w.disk.stage.value, name))
  {
    var id, s := w.pc.id, w.disk.stage.value;
    var v := Restored(w, false, id, s, name);
    FaithfulAt(w, id);
    if name !in w.disk.dirs[id] { UnionLink(s.files.value, w.disk.dirs[id], name); }
    assert forall d :: Staged(v.disk, d) == Staged(w.disk, d);
    assert Staged(w.disk, id) == s.files.value;
    hide Faithful, Staged;
    FaithfulElse(w, v, id);
  }

  lemma InvUnlinked(w: World, name: Name)
    requires Inv(w) && w.pc.Linked?
    ensures Keeps(w, Unlinked(w, w.pc.id, w.disk.stage.value, w.pc.name))
  {
    InvTaken(w, w.pc.name, Restoring(false, w.pc.id));
  }

  lemma InvRemovedCheckout(w: World)
    requires Inv(w) && w.pc.Checked?
    ensures Keeps(w, RemovedCheckout(w, w.pc.id, w.pc.snap))
  {
    var id, snap := w.pc.id, w.pc.snap;
    if w.disk.path.Some? && w.disk.dirs[w.disk.path.value] == map[] {
      var v := RemovedCheckout(w, id, snap);
      RootedRemoved(w, id, snap);
      if Faithful(w) { FaithfulRemoved(w, id, snap); }
      assert Journalled(v) && AtPc(v);
    }
  }

  lemma RootedRemoved(w: World, id: nat, snap: Tree)
    requires Rooted(w) && w.disk.path.Some? && w.disk.dirs[w.disk.path.value] == map[]
    ensures Rooted(RemovedCheckout(w, id, snap))
  {
    var d, v := w.disk.path.value, RemovedCheckout(w, id, snap);
    assert v.disk.dirs.Keys == w.disk.dirs.Keys - {d} && v.retired.Keys == w.retired.Keys + {d};
  }

  lemma FaithfulRemoved(w: World, id: nat, snap: Tree)
    requires Rooted(w) && Faithful(w) && w.disk.path.Some? && w.disk.dirs[w.disk.path.value] == map[] && Staged(w.disk, id) == snap
    requires forall d | d != id :: Staged(w.disk, d) == map[]
    ensures Faithful(RemovedCheckout(w, id, snap))
  {
    var d, v := w.disk.path.value, RemovedCheckout(w, id, snap);
    assert forall e | e in v.disk.dirs :: Staged(v.disk, e) == Staged(w.disk, e);
    assert w.written[d] == Staged(w.disk, d);
  }

  /** Changing an empty stage for another one, or for none, touches no file. */
  lemma InvRestage(w: World, stage: Option<Stage>, pc: Pc)
    requires Rooted(w)
    requires w.disk.stage.Some? ==> NothingStaged(w.disk.stage.value)
    requires stage.Some? ==> NothingStaged(stage.value)
    ensures var v := WithStage(w, stage, pc); Rooted(v) && Journalled(v) && (Faithful(w) ==> Faithful(v))
  {
    var v := WithStage(w, stage, pc);
    forall id | id in w.disk.dirs
      ensures Staged(v.disk, id) == Staged(w.disk, id) == map[]
    {}
  }

  lemma InvPrepare(w: World)
    requires Inv(w)
    requires w.pc.Admitted? || w.pc.StageMade? || w.pc.FilesMade? || w.pc.JournalOpen?
    ensures Keeps(w, Advanced(w))
  {
    var v := Advanced(w);
    InvRestage(w, v.disk.stage, v.pc);
  }

  /** The steps that take an empty stage apart. */
  lemma InvUnstage(w: World, stage: Option<Stage>, pc: Pc)
    requires Rooted(w)
    requires w.disk.stage.Some? ==> NothingStaged(w.disk.stage.value)
    requires stage.Some? ==> NothingStaged(stage.value)
    requires pc.Idle? || pc.Discarding? || (stage.Some? && (pc.Sweeping? || pc.Closing?))
    ensures Keeps(w, WithStage(w, stage, pc))
  {
    InvRestage(w, stage, pc);
  }

  lemma InvDiscard(w: World)
    requires Rooted(w)
    requires w.disk.stage.Some? ==> NothingStaged(w.disk.stage.value)
    ensures Keeps(w, DiscardStep(w))
  {
    hide Keeps;
    var v := DiscardStep(w);
    assert v == WithStage(w, v.disk.stage, v.pc);
    InvUnstage(w, v.disk.stage, v.pc);
  }

  lemma InvSweep(w: World, s: Stage)
    requires Rooted(w) && w.disk.stage == Some(s) && NothingStaged(s)
    ensures Keeps(w, SweepStep(w, s))
  {
    hide Rooted, Keeps;
    var v := SweepStep(w, s);
    assert v == WithStage(w, v.disk.stage, v.pc);
    InvUnstage(w, v.disk.stage, v.pc);
  }

  lemma InvClose(w: World, s: Stage)
    requires Rooted(w) && w.disk.stage == Some(s) && NothingStaged(s)
    ensures Keeps(w, CloseStep(w, s))
  {
    hide Rooted, Keeps;
    var v := CloseStep(w, s);
    assert v == WithStage(w, v.disk.stage, v.pc);
    InvUnstage(w, v.disk.stage, v.pc);
  }

  lemma InvMarker(w: World)
    requires Inv(w) && w.pc.Emptied?
    ensures Keeps(w, Advanced(w))
  {
    var v := Advanced(w);
    assert forall d | d in w.disk.dirs :: Staged(v.disk, d) == Staged(w.disk, d);
  }

  lemma InvAdvance(w: World)
    requires Inv(w)
    ensures Keeps(w, Advanced(w))
  {
    match w.pc
    case Admitted(_, _) => InvPrepare(w);
    case StageMade(_, _) => InvPrepare(w);
    case FilesMade(_, _) => InvPrepare(w);
    case JournalOpen(_, _) => InvPrepare(w);
    case Checked(_, _) => InvRemovedCheckout(w);
    case Emptied(_, _) => InvMarker(w);
    case Discarding => InvDiscard(w);
    case Sweeping => InvSweep(w, w.disk.stage.value);
    case Closing => InvClose(w, w.disk.stage.value);
    case Restoring(_, _) => if NothingStaged(w.disk.stage.value) { InvClose(w, w.disk.stage.value); }
    case _ => InvControl(w, Advanced(w));
  }

  lemma InvTouch(w: World, name: Name)
    requires Inv(w)
    ensures Inv(Touched(w, name))
    ensures !Loses(w, Touch(name)) ==> Keeps(w, Touched(w, name))
  {
    match w.pc
    case Moving(_, _) => InvMoved(w, name);
    case Restoring(gone, _) => if gone { InvDropped(w, name); } else { InvLinked(w, name); }
    case Linked(_, _) => InvUnlinked(w, name);
    case Sweeping => InvSwept(w, w.disk.stage.value);
    case _ =>
  }

  lemma InvSwept(w: World, s: Stage)
    requires Inv(w) && w.pc.Sweeping? && w.disk.stage == Some(s)
    ensures Keeps(w, SweepMarker(w, s))
  {
    var v := SweepMarker(w, s);
    InvUnstage(w, v.disk.stage, v.pc);
  }

  lemma FaithfulRecreate(w: World)
    requires Rooted(w) && Journalled(w) && Faithful(w) && w.disk.path.None?
    ensures Faithful(Recreated(w))
  {
    var v := Recreated(w);
    assert w.next !in w.written && Staged(v.disk, w.next) == map[];
    assert forall d :: Staged(v.disk, d) == Staged(w.disk, d);
    hide Faithful, Staged;
    FaithfulElse(w, v, w.next);
  }

  lemma InvRecreate(w: World)
    requires Inv(w)
    ensures Keeps(w, Recreated(w))
  {
    var v := Recreated(w);
    if w.disk.path.None? {
      hide AtPc, Faithful;
      assert v.disk.dirs.Keys == w.disk.dirs.Keys + {w.next} && v.written.Keys == w.written.Keys + {w.next};
      AtPcLater(w, v);
      if Faithful(w) { FaithfulRecreate(w); }
    }
  }

  lemma InvRelocate(w: World)
    requires Inv(w)
    ensures Keeps(w, Step(w, Relocate))
  {
    var v := Step(w, Relocate);
    hide AtPc;
    AtPcLater(w, v);
    assert forall id | id in w.disk.dirs :: Staged(v.disk, id) == Staged(w.disk, id);
  }

  /** Steps that move the program counter only. */
  lemma InvControl(w: World, v: World)
    requires Inv(w) && v == w.(pc := v.pc) && AtPc(v)
    ensures Keeps(w, v)
  {
    assert forall id | id in w.disk.dirs :: Staged(v.disk, id) == Staged(w.disk, id);
  }

  lemma InvDecide(w: World, active: bool)
    requires Inv(w)
    ensures Keeps(w, Decided(w, active))
  {
    var v := Decided(w, active);
    if v.pc.Checked? && w.pc.Moving? {
      assert v.disk.stage.value.files.value == w.pc.snap;
    }
    InvControl(w, v);
  }

  /** Every step keeps the invariant, and every step but a dropping one keeps all that producers wrote. */
  lemma InvStep(w: World, a: Action)
    requires Inv(w)
    ensures Inv(Step(w, a))
    ensures !Loses(w, a) ==> Keeps(w, Step(w, a))
  {
    hide Keeps, Loses;
    KeepsInv(w, Step(w, a));
    match a
    case Produce(dir, name, folder) => InvProduce(w, dir, name, folder);
    case Recreate => InvRecreate(w);
    case Relocate => InvRelocate(w);
    case Touch(name) => InvTouch(w, name);
    case Advance => InvAdvance(w);
    case Decide(active) => InvDecide(w, active);
    case Crash => InvControl(w, w.(pc := Idle));
    case Fault => InvControl(w, Raised(w));
    case Begin => InvControl(w, Begun(w));
    case Recover => InvControl(w, RecoveryStarted(w));
  }

  lemma KeepsInv(w: World, v: World)
    ensures Keeps(w, v) ==> Inv(v)
  {}

  /** A step loses something exactly when it drops the only copy of a file. */
  lemma LossExactly(w: World, a: Action)
    requires Inv(w) && Faithful(w)
    ensures Faithful(Step(w, a)) <==> !Loses(w, a)
  {
    InvStep(w, a);
    if Loses(w, a) { LossShows(w, a); }
  }

  lemma LossShows(w: World, a: Action)
    requires Inv(w) && Faithful(w) && Loses(w, a)
    ensures !Faithful(Step(w, a))
  {
    var id, v := w.pc.id, Step(w, a);
    assert v == WithStage(w, Some(w.disk.stage.value.(files := Some(w.disk.stage.value.files.value - {a.name}))), w.pc);
    FaithfulAt(w, id);
    assert a.name in Staged(w.disk, id) && a.name !in Staged(v.disk, id);
    hide Faithful, Staged, Step, Loses, Inv;
    if Faithful(v) { FaithfulAt(v, id); }
  }

  lemma {:induction false} InvRun(w: World, acts: seq<Action>)
    requires Inv(w)
    ensures Inv(Run(w, acts))
    decreases |acts|
  {
    if acts != [] {
      InvStep(w, acts[0]);
      InvRun(Step(w, acts[0]), acts[1..]);
    }
  }

  lemma InvStart(tree: Tree, next: nat)
    ensures Inv(Start(tree, next)) && Faithful(Start(tree, next))
  {
    assert Staged(Start(tree, next).disk, 0) + tree == tree;
  }

  // ---------------------------------------------------------------- when nothing is lost

  /** The directory that the remover holds open, with its inventory. */
  function Held(pc: Pc): Option<nat> {
    match pc
    case Listed(id, _) => Some(id)
    case Admitted(id, _) => Some(id)
    case StageMade(id, _) => Some(id)
    case FilesMade(id, _) => Some(id)
    case JournalOpen(id, _) => Some(id)
    case JournalSaved(id, _) => Some(id)
    case Moving(id, _) => Some(id)
    case Checked(id, _) => Some(id)
    case _ => None
  }

  predicate HasStaged(d: Disk, id: nat) {
    && d.stage.Some? && !NothingStaged(d.stage.value)
    && d.stage.value.journal.Written? && d.stage.value.journal.checkout == id
  }

  /** The checkout may be moved: no removal is under way in it, and none of its files are staged. */
  predicate Movable(w: World) {
    w.disk.path.Some? ==> Held(w.pc) != w.disk.path && !HasStaged(w.disk, w.disk.path.value)
  }

  /** The checkout is moved only when it may be. */
  predicate Careful(w: World, acts: seq<Action>)
    decreases |acts|
  {
    acts == [] || ((acts[0].Relocate? ==> Movable(w)) && Careful(Step(w, acts[0]), acts[1..]))
  }

  /** A live directory that is held or has files staged is the one that the checkout's name leads to. */
  predicate Anchored(w: World) {
    && (Held(w.pc).Some? && Held(w.pc).value in w.disk.dirs ==> w.disk.path == Held(w.pc))
    && (forall id | id in w.disk.dirs && HasStaged(w.disk, id) :: w.disk.path == Some(id) && !w.disk.stage.value.marker)
    && (w.pc.Emptied? || (w.pc.Restoring? && w.pc.gone && HasStaged(w.disk, w.pc.id)) ==> w.pc.id !in w.disk.dirs)
  }

  lemma AnchoredRecreate(w: World)
    requires Inv(w) && Anchored(w)
    ensures Anchored(Recreated(w))
  {
    if w.disk.path.None? {
      assert w.next !in w.written;
      assert forall id | id in w.written :: HasStaged(Recreated(w).disk, id) == HasStaged(w.disk, id);
    }
  }

  lemma AnchoredSame(w: World, v: World)
    requires Anchored(w) && v.disk.path == w.disk.path && v.disk.dirs == w.disk.dirs
    requires Held(v.pc).None? || Held(v.pc) == Held(w.pc)
    requires forall id | HasStaged(v.disk, id) :: HasStaged(w.disk, id) && v.disk.stage.value.marker == w.disk.stage.value.marker
    requires v.pc.Emptied? ==> w.pc == v.pc
    requires v.pc.Restoring? && v.pc.gone && HasStaged(v.disk, v.pc.id) ==> w.pc == v.pc
    ensures Anchored(v)
  {}

  lemma AnchoredRemoved(w: World)
    requires Inv(w) && Anchored(w) && w.pc.Checked?
    ensures Anchored(RemovedCheckout(w, w.pc.id, w.pc.snap))
  {}

  lemma AnchoredMarked(w: World)
    requires Inv(w) && Anchored(w) && w.pc.Emptied?
    ensures Anchored(Advanced(w))
  {}

  lemma AnchoredAdvance(w: World)
    requires Inv(w) && Anchored(w)
    ensures Anchored(Advanced(w))
  {
    match w.pc
    case Checked(_, _) => AnchoredRemoved(w);
    case Emptied(_, _) => AnchoredMarked(w);
    case _ => AnchoredEmpty(w);
  }

  /** The other calls of the straight-line parts touch stages without files only. */
  lemma AnchoredEmpty(w: World)
    requires Inv(w) && Anchored(w) && !w.pc.Checked? && !w.pc.Emptied?
    ensures Anchored(Advanced(w))
  {
    hide Anchored, Rooted, Journalled;
    if Held(w.pc).Some? {
      AnchoredPrepare(w);
    } else if w.pc.Discarding? || w.pc.Sweeping? || w.pc.Closing? || w.pc.Restoring? {
      AnchoredUnstage(w);
    } else {
      assert Advanced(w) == w;
    }
  }

  lemma AnchoredPrepare(w: World)
    requires AtPc(w) && Anchored(w) && Held(w.pc).Some? && !w.pc.Checked?
    ensures Anchored(Advanced(w))
  {
    hide Anchored;
    AnchoredSame(w, Advanced(w));
  }

  lemma AnchoredUnstage(w: World)
    requires AtPc(w) && Anchored(w) && (w.pc.Discarding? || w.pc.Sweeping? || w.pc.Closing? || w.pc.Restoring?)
    ensures Anchored(Advanced(w))
  {
    hide Anchored;
    if w.disk.stage.Some? && (w.pc.Restoring? ==> NothingStaged(w.disk.stage.value)) {
      EmptiedStays(w);
      hide Advanced;
      AnchoredSame(w, Advanced(w));
    } else {
      AnchoredSame(w, Advanced(w));
    }
  }

  lemma EmptiedStays(w: World)
    requires w.pc.Discarding? || w.pc.Sweeping? || w.pc.Closing? || w.pc.Restoring?
    requires w.disk.stage.Some? && NothingStaged(w.disk.stage.value)
    ensures var v := Advanced(w);
      && v.disk.path == w.disk.path && v.disk.dirs == w.disk.dirs && Held(v.pc).None? && !v.pc.Emptied? && !v.pc.Restoring?
      && (v.disk.stage.Some? ==> NothingStaged(v.disk.stage.value))
  {
    match w.pc
    case Discarding => hide CloseStep, SweepStep;
    case Sweeping => hide CloseStep, DiscardStep;
    case _ => hide SweepStep, DiscardStep;
  }

  lemma AnchoredTouch(w: World, name: Name)
    requires Inv(w) && Anchored(w)
    ensures Anchored(Touched(w, name))
  {}

  lemma AnchoredControl(w: World, a: Action)
    requires Inv(w) && Anchored(w) && (a.Crash? || a.Fault? || a.Begin? || a.Decide? || a.Recover?)
    ensures Anchored(Step(w, a))
  {
    match a
    case Begin => AnchoredBegun(w);
    case Recover => AnchoredRecovering(w);
    case _ =>
      hide Anchored, Rooted, Journalled, AtPc, Inv;
      AnchoredSame(w, Step(w, a));
  }

  lemma AnchoredBegun(w: World)
    requires Rooted(w) && Anchored(w)
    ensures Anchored(Begun(w))
  {
    var v := Begun(w);
    hide NothingStaged, HasFolder;
    assert forall id :: HasStaged(v.disk, id) == HasStaged(w.disk, id);
  }

  lemma AnchoredRecovering(w: World)
    requires Rooted(w) && Journalled(w) && Anchored(w)
    ensures Anchored(RecoveryStarted(w))
  {
    var v := RecoveryStarted(w);
    hide HasFolder;
    assert forall id :: HasStaged(v.disk, id) == HasStaged(w.disk, id);
  }

  lemma AnchoredProduce(w: World, dir: nat, name: Name, folder: bool)
    requires Anchored(w)
    ensures Anchored(Produced(w, dir, name, folder))
  {
    var v := Produced(w, dir, name, folder);
    assert v.disk.dirs.Keys == w.disk.dirs.Keys;
    assert forall id | HasStaged(v.disk, id) :: HasStaged(w.disk, id);
  }

  lemma AnchoredRelocate(w: World)
    requires Anchored(w) && Movable(w)
    ensures Anchored(Step(w, Relocate))
  {
    assert forall id | HasStaged(Step(w, Relocate).disk, id) :: HasStaged(w.disk, id);
  }

  lemma AnchoredLosesNothing(w: World, a: Action)
    requires Inv(w) && Anchored(w)
    ensures !Loses(w, a)
  {}

  lemma AnchoredStep(w: World, a: Action)
    requires Inv(w) && Anchored(w) && (a.Relocate? ==> Movable(w))
    ensures Anchored(Step(w, a)) && !Loses(w, a)
  {
    hide Inv, Anchored, Movable, Loses;
    AnchoredLosesNothing(w, a);
    match a
    case Produce(dir, name, folder) => AnchoredProduce(w, dir, name, folder);
    case Recreate => AnchoredRecreate(w);
    case Relocate => AnchoredRelocate(w);
    case Touch(name) => AnchoredTouch(w, name);
    case Advance => AnchoredAdvance(w);
    case _ => AnchoredControl(w, a);
  }

  lemma {:induction false} CarefulRun(w: World, acts: seq<Action>)
    requires Inv(w) && Faithful(w) && Anchored(w) && Careful(w, acts)
    ensures var v := Run(w, acts); Inv(v) && Faithful(v) && Anchored(v)
    decreases |acts|
  {
    if acts != [] {
      AnchoredStep(w, acts[0]);
      InvStep(w, acts[0]);
      CarefulRun(Step(w, acts[0]), acts[1..]);
    }
  }

  /**
   For every interleaving of removals, producers, crashes, faults, recoveries and moves of the
   checkout when it may be moved: a live directory together with its staged files is what the
   producers left; a directory was removed only while every entry ever written to it was in the
   admitted inventory; and once no stage remains, live directories are as if no cleanup had run.
   */
  lemma NothingIsLost(tree: Tree, next: nat, acts: seq<Action>)
    requires Careful(Start(tree, next), acts)
    ensures var w := Run(Start(tree, next), acts);
      && (forall id | id in w.disk.dirs :: id in w.written && Staged(w.disk, id) + w.disk.dirs[id] == w.written[id])
      && (forall id | id in w.retired :: id !in w.disk.dirs && id in w.written && w.written[id] == w.retired[id])
      && w.written.Keys == w.disk.dirs.Keys + w.retired.Keys
      && (w.disk.stage.None? ==> forall id | id in w.disk.dirs :: w.disk.dirs[id] == w.written[id])
  {
    InvStart(tree, next);
    CarefulRun(Start(tree, next), acts);
    var w := Run(Start(tree, next), acts);
    if w.disk.stage.None? {
      forall id | id in w.disk.dirs ensures w.disk.dirs[id] == w.written[id] {
        assert map[] + w.disk.dirs[id] == w.disk.dirs[id];
      }
    }
  }

  /** A journal that is missing or only partly written never has a file under it, whatever is moved. */
  lemma TornJournalCoversNothing(tree: Tree, next: nat, acts: seq<Action>)
    ensures var w := Run(Start(tree, next), acts);
      w.disk.stage.Some? && !w.disk.stage.value.journal.Written? ==> NothingStaged(w.disk.stage.value)
  {
    InvStart(tree, next);
    InvRun(Start(tree, next), acts);
  }

  // ---------------------------------------------------------------- originals or newer files

  /** Every entry of `t` is still there, or has been replaced by one made at or after `since`. */
  predicate KeptOrNewer(t: Tree, later: Tree, since: nat) {
    forall n | n in t :: n in later && (later[n] == t[n] || later[n].inode >= since)
  }

  /** Only a producer changes what a directory ought to hold. */
  lemma OnlyProducersWrite(w: World, a: Action)
    requires !a.Produce? && !a.Recreate?
    ensures Step(w, a).written == w.written && Step(w, a).next == w.next
  {
    match a
    case Touch(_) =>
    case Advance =>
    case _ =>
  }

  lemma WrittenGrows(w: World, a: Action, id: nat, t: Tree, since: nat)
    requires Rooted(w) && since <= w.next
    requires id in w.written && KeptOrNewer(t, w.written[id], since)
    ensures var v := Step(w, a); id in v.written && KeptOrNewer(t, v.written[id], since) && w.next <= v.next
  {
    if !a.Produce? && !a.Recreate? { OnlyProducersWrite(w, a); }
  }

  lemma {:induction false} WrittenGrowsRun(w: World, acts: seq<Action>, id: nat, t: Tree, since: nat)
    requires Inv(w) && since <= w.next
    requires id in w.written && KeptOrNewer(t, w.written[id], since)
    ensures var v := Run(w, acts); id in v.written && KeptOrNewer(t, v.written[id], since)
    decreases |acts|
  {
    if acts != [] {
      InvStep(w, acts[0]);
      WrittenGrows(w, acts[0], id, t, since);
      WrittenGrowsRun(Step(w, acts[0]), acts[1..], id, t, since);
    }
  }

  /** Directory `id` was removed while empty, or holds every entry of `t` as it was or newer. */
  predicate Survives(t: Tree, id: nat, v: World, since: nat) {
    || (id !in v.disk.dirs && id in v.retired && id in v.written && v.retired[id] == v.written[id])
    || (id in v.disk.dirs && KeptOrNewer(t, v.disk.dirs[id], since))
  }

  lemma SurvivesAt(v: World, id: nat, t: Tree, since: nat)
    requires Rooted(v) && Faithful(v) && v.disk.stage.None?
    requires id in v.written && KeptOrNewer(t, v.written[id], since)
    ensures Survives(t, id, v, since)
  {
    if id in v.disk.dirs {
      assert map[] + v.disk.dirs[id] == v.disk.dirs[id];
    }
  }

  lemma InventoryIsWritten(u: World)
    requires Inv(u) && Faithful(u) && u.pc.Idle? && Begun(u).pc.Listed?
    ensures var w := Begun(u); w.pc.id in w.written && w.written[w.pc.id] == w.pc.snap
  {
    var id := u.disk.path.value;
    assert map[] + u.disk.dirs[id] == u.disk.dirs[id];
  }

  /**
   Take any inventory of any run. Whenever later no stage remains, the checkout was removed by
   `rmdir` while empty, or it holds every inventoried name, as the original file or as a newer one.
   */
  lemma MetadataSurvives(tree: Tree, next: nat, before: seq<Action>, after: seq<Action>)
    requires Careful(Start(tree, next), before) && Run(Start(tree, next), before).pc.Idle?
    requires Begun(Run(Start(tree, next), before)).pc.Listed? && Careful(Begun(Run(Start(tree, next), before)), after)
    ensures
      var u := Run(Start(tree, next), before);
      var v := Run(Begun(u), after);
      v.disk.stage.None? ==> Survives(Begun(u).pc.snap, Begun(u).pc.id, v, u.next)
  {
    InvStart(tree, next);
    CarefulRun(Start(tree, next), before);
    var u := Run(Start(tree, next), before);
    InventoryIsWritten(u);
    InvStep(u, Begin);
    AnchoredStep(u, Begin);
    var w := Begun(u);
    CarefulRun(w, after);
    WrittenGrowsRun(w, after, w.pc.id, w.pc.snap, u.next);
    var v := Run(w, after);
    if v.disk.stage.None? { SurvivesAt(v, w.pc.id, w.pc.snap, u.next); }
  }

  // ---------------------------------------------------------------- recovery

  /** Actions of a recovery that nobody disturbs, except that it may die and be started again. */
  predicate Quiet(a: Action) {
    a.Crash? || a.Fault? || a.Recover? || a.Advance? || a.Touch?
  }

  /** Recovery has no reason to refuse: same checkout, known names, no staged directory. */
  predicate Clear(d: Disk) {
    && (d.stage.Some? ==> !Refused(d, d.stage.value))
    && (d.path.Some? ==> d.path.value in d.dirs)
  }

  /** The disk every recovery ends in. */
  function Settled(d: Disk): Disk {
    if d.stage.None? then d
    else if NothingStaged(d.stage.value) || Gone(d, d.stage.value) || d.path.value !in d.dirs
    then d.(stage := None)
    else d.(stage := None, dirs := d.dirs[d.path.value := d.stage.value.files.value + d.dirs[d.path.value]])
  }

  /** Names the checkout already has, as far as recovery looks at them. */
  function HomeNames(d: Disk, s: Stage): set<Name> {
    if Gone(d, s) || d.path.value !in d.dirs then {} else d.dirs[d.path.value].Keys
  }

  /** What recovery still has to do, counted in file system changes. */
  function Work(d: Disk): nat {
    if d.stage.None? then 0 else
      var s := d.stage.value;
      1 + (if s.journal.Absent? then 0 else 1) + (if s.marker then 1 else 0)
        + (if s.files.None? then 0 else 1 + |s.files.value.Keys| + |s.files.value.Keys - HomeNames(d, s)|)
  }

  predicate RecoveryPc(w: World) {
    match w.pc
    case Idle => true
    case Recovering => true
    case Sweeping => w.disk.stage.Some? && NothingStaged(w.disk.stage.value)
    case Closing => w.disk.stage.Some? && NothingStaged(w.disk.stage.value)
    case Restoring(gone, id) =>
      && w.disk.stage.Some? && w.disk.stage.value.files.Some?
      && (!NothingStaged(w.disk.stage.value) ==>
            gone == Gone(w.disk, w.disk.stage.value) && (!gone ==> w.disk.path == Some(id)))
    case Linked(id, name) =>
      && w.disk.stage.Some? && w.disk.stage.value.files.Some? && name in w.disk.stage.value.files.value
      && !w.disk.stage.value.marker && w.disk.path == Some(id)
      && id in w.disk.dirs && name in w.disk.dirs[id]
    case _ => false
  }

  predicate Recoverable(w: World) {
    Clear(w.disk) && RecoveryPc(w)
  }

  /** One quiet step leads towards the same disk, and either changes nothing on disk or does some of the work. */
  predicate Converges(w: World, v: World) {
    && Recoverable(v)
    && Settled(v.disk) == Settled(w.disk)
    && (v.disk == w.disk || Work(v.disk) < Work(w.disk))
  }

  lemma ShrinkKeys(a: Tree, n: Name, home: set<Name>)
    requires n in a
    ensures |(a - {n}).Keys| < |a.Keys|
    ensures |(a - {n}).Keys - home| <= |a.Keys - home|
  {
    assert (a - {n}).Keys == a.Keys - {n};
    SubsetSize((a - {n}).Keys - home, a.Keys - home);
  }

  lemma {:induction false} SubsetSize(a: set<Name>, b: set<Name>)
    requires a <= b
    ensures |a| <= |b|
    decreases b
  {
    if b != {} {
      var x :| x in b;
      SubsetSize(a - {x}, b - {x});
    }
  }

  /** Where a stage with files under a live checkout settles, empty `files` included. */
  lemma SettledAtHome(d: Disk, f: Tree)
    requires d.stage.Some? && d.stage.value.files == Some(f)
    requires !d.stage.value.marker && d.path.Some? && d.path.value in d.dirs
    ensures Settled(d) == d.(stage := None, dirs := d.dirs[d.path.value := f + d.dirs[d.path.value]])
  {
    var home := d.dirs[d.path.value];
    if f == map[] {
      assert f + home == home;
      assert d.dirs[d.path.value := home] == d.dirs;
    }
  }

  lemma DroppedConverges(w: World, name: Name)
    requires Recoverable(w) && w.pc.Restoring? && w.pc.gone
    requires name in w.disk.stage.value.files.value
    ensures Converges(w, Restored(w, true, w.pc.id, w.disk.stage.value, name))
    ensures Work(Restored(w, true, w.pc.id, w.disk.stage.value, name).disk) < Work(w.disk)
  {
    var s := w.disk.stage.value;
    var v := Restored(w, true, w.pc.id, s, name);
    ShrinkKeys(s.files.value, name, {});
    assert Gone(w.disk, s) && Gone(v.disk, v.disk.stage.value);
  }

  /** Linking a file back does not change where the stage settles. */
  lemma LinkedSettles(d: Disk, f: Tree, name: Name)
    requires d.stage.Some? && d.stage.value.files == Some(f) && name in f
    requires !d.stage.value.marker && d.path.Some? && d.path.value in d.dirs && name !in d.dirs[d.path.value]
    ensures var e := d.(dirs := d.dirs[d.path.value := d.dirs[d.path.value][name := f[name]]]);
      Settled(e) == Settled(d) && Work(e) < Work(d)
  {
    var id, home := d.path.value, d.dirs[d.path.value];
    var e := d.(dirs := d.dirs[id := home[name := f[name]]]);
    SettledAtHome(d, f);
    SettledAtHome(e, f);
    UnionLink(f, home, name);
    assert e.dirs[id := f + home] == d.dirs[id := f + home];
    hide Settled;
    assert e.dirs[id].Keys == home.Keys + {name};
    assert f.Keys - e.dirs[id].Keys == (f.Keys - home.Keys) - {name};
  }

  lemma LinkedDisk(w: World, name: Name)
    requires Recoverable(w) && w.pc.Restoring? && !w.pc.gone && name in w.disk.stage.value.files.value
    ensures var home := w.disk.dirs[w.disk.path.value];
      Restored(w, false, w.pc.id, w.disk.stage.value, name).disk ==
        if name in home then w.disk
        else w.disk.(dirs := w.disk.dirs[w.disk.path.value := home[name := w.disk.stage.value.files.value[name]]])
  {
    if name in w.disk.dirs[w.pc.id] {
      assert w.disk.dirs[w.pc.id := w.disk.dirs[w.pc.id]] == w.disk.dirs;
    }
  }

  lemma LinkedRecoverable(w: World, name: Name)
    requires Recoverable(w) && w.pc.Restoring? && !w.pc.gone && name in w.disk.stage.value.files.value
    ensures var v := Restored(w, false, w.pc.id, w.disk.stage.value, name); Recoverable(v) && v.pc.Linked?
  {}

  lemma LinkedConverges(w: World, name: Name)
    requires Recoverable(w) && w.pc.Restoring? && !w.pc.gone
    requires name in w.disk.stage.value.files.value
    ensures Converges(w, Restored(w, false, w.pc.id, w.disk.stage.value, name))
    ensures Restored(w, false, w.pc.id, w.disk.stage.value, name).pc.Linked?
  {
    LinkedRecoverable(w, name);
    LinkedDisk(w, name);
    hide Settled, Work, Restored;
    if name !in w.disk.dirs[w.disk.path.value] { LinkedSettles(w.disk, w.disk.stage.value.files.value, name); }
  }

  lemma RestoredConverges(w: World, name: Name)
    requires Recoverable(w) && w.pc.Restoring?
    ensures Converges(w, Restored(w, w.pc.gone, w.pc.id, w.disk.stage.value, name))
  {
    if name in w.disk.stage.value.files.value {
      if w.pc.gone { DroppedConverges(w, name); } else { LinkedConverges(w, name); }
    }
  }

  lemma UnlinkedConverges(w: World)
    requires Recoverable(w) && w.pc.Linked?
    ensures Converges(w, Unlinked(w, w.pc.id, w.disk.stage.value, w.pc.name))
    ensures Work(Unlinked(w, w.pc.id, w.disk.stage.value, w.pc.name).disk) < Work(w.disk)
  {
    var s, id, name := w.disk.stage.value, w.pc.id, w.pc.name;
    var f, home := s.files.value, w.disk.dirs[id];
    var v := Unlinked(w, id, s, name);
    ShrinkKeys(f, name, home.Keys);
    UnionUnlink(f, home, name);
    SettledAtHome(w.disk, f);
    SettledAtHome(v.disk, f - {name});
  }

  lemma EmptyWork(d: Disk)
    requires d.stage.Some? && NothingStaged(d.stage.value)
    ensures var s := d.stage.value;
      Work(d) == 1 + (if s.journal.Absent? then 0 else 1) + (if s.marker then 1 else 0)
                   + (if s.files.None? then 0 else 1)
  {
    var s := d.stage.value;
    if s.files.Some? {
      assert s.files.value.Keys == {} && s.files.value.Keys - HomeNames(d, s) == {};
    }
  }

  lemma CloseConverges(w: World)
    requires Recoverable(w) && w.disk.stage.Some? && NothingStaged(w.disk.stage.value)
    ensures Converges(w, CloseStep(w, w.disk.stage.value))
    ensures Work(CloseStep(w, w.disk.stage.value).disk) < Work(w.disk)
  {
    var v := CloseStep(w, w.disk.stage.value);
    EmptyWork(w.disk);
    if v.disk.stage.Some? { EmptyWork(v.disk); }
    assert Settled(v.disk) == w.disk.(stage := None);
  }

  lemma SweepConverges(w: World)
    requires Recoverable(w) && w.disk.stage.Some? && NothingStaged(w.disk.stage.value)
    ensures Converges(w, SweepStep(w, w.disk.stage.value))
    ensures Work(SweepStep(w, w.disk.stage.value).disk) < Work(w.disk)
  {
    var v := SweepStep(w, w.disk.stage.value);
    EmptyWork(w.disk);
    if v.disk.stage.Some? { EmptyWork(v.disk); }
    assert Settled(v.disk) == w.disk.(stage := None);
  }

  lemma SweepMarkerConverges(w: World)
    requires Recoverable(w) && w.pc.Sweeping?
    ensures Converges(w, SweepMarker(w, w.disk.stage.value))
  {
  }

  lemma QuietStep(w: World, a: Action)
    requires Recoverable(w) && Quiet(a)
    ensures Converges(w, Step(w, a))
  {
    match a
    case Touch(name) =>
      if w.pc.Restoring? { RestoredConverges(w, name); }
      else if w.pc.Linked? { UnlinkedConverges(w); }
      else if w.pc.Sweeping? { SweepMarkerConverges(w); }
    case Advance =>
      if w.pc.Sweeping? { SweepConverges(w); }
      else if (w.pc.Closing? || w.pc.Restoring?) && NothingStaged(w.disk.stage.value) { CloseConverges(w); }
    case _ =>
  }

  lemma {:induction false} QuietRun(w: World, acts: seq<Action>)
    requires Recoverable(w) && (forall a | a in acts :: Quiet(a))
    ensures var v := Run(w, acts);
      && Recoverable(v)
      && Settled(v.disk) == Settled(w.disk)
      && (v.disk == w.disk || Work(v.disk) < Work(w.disk))
    decreases |acts|
  {
    if acts != [] {
      QuietStep(w, acts[0]);
      QuietRun(Step(w, acts[0]), acts[1..]);
    }
  }

  /** The next action of a recovery that nothing interrupts. */
  ghost function NextAction(w: World): Action {
    match w.pc
    case Idle => Recover
    case Recovering => Recover
    case Restoring(_, _) =>
      if w.disk.stage.Some? && w.disk.stage.value.files.Some? && w.disk.stage.value.files.value != map[]
      then Touch(AnyName(w.disk.stage.value.files.value)) else Advance
    case Linked(_, name) => Touch(name)
    case _ => Advance
  }

  ghost function AnyName(t: Tree): (n: Name)
    requires t != map[]
    ensures n in t
  {
    assert t.Keys != {};
    var n :| n in t; n
  }

  function PcRank(pc: Pc): nat {
    match pc
    case Idle => 2
    case Recovering => 2
    case Restoring(_, _) => 1
    case _ => 0
  }

  /** The next action does some work, or only moves the program counter on. */
  predicate Progresses(w: World, v: World) {
    Work(v.disk) < Work(w.disk) || (v.disk == w.disk && PcRank(v.pc) < PcRank(w.pc))
  }

  /** The step of `NextAction`, spelled out. */
  ghost function NextWorld(w: World): World
    requires w.disk.stage.Some?
    requires w.pc.Restoring? ==> w.disk.stage.value.files.Some?
  {
    var s := w.disk.stage.value;
    match w.pc
    case Idle => RecoveryStarted(w)
    case Recovering => RecoveryStarted(w)
    case Restoring(gone, id) =>
      if s.files.value == map[] then CloseStep(w, s)
      else Restored(w, gone, id, s, AnyName(s.files.value))
    case Linked(id, name) => Unlinked(w, id, s, name)
    case Sweeping => SweepStep(w, s)
    case Closing => CloseStep(w, s)
    case _ => w
  }

  lemma NextWorldIsNext(w: World)
    requires Recoverable(w) && w.disk.stage.Some?
    ensures Step(w, NextAction(w)) == NextWorld(w)
  {
    match w.pc
    case Restoring(_, _) =>
    case Linked(_, _) =>
    case Sweeping =>
    case Closing =>
    case Idle =>
    case Recovering =>
  }

  lemma RestoredProgresses(w: World, name: Name)
    requires Recoverable(w) && w.pc.Restoring?
    requires name in w.disk.stage.value.files.value
    ensures Progresses(w, Restored(w, w.pc.gone, w.pc.id, w.disk.stage.value, name))
  {
    if w.pc.gone { DroppedConverges(w, name); } else { LinkedConverges(w, name); }
  }

  lemma NextWorldProgresses(w: World)
    requires Recoverable(w) && w.disk.stage.Some?
    ensures Progresses(w, NextWorld(w))
  {
    var s := w.disk.stage.value;
    hide Work, Settled, Clear;
    if w.pc.Linked? {
      UnlinkedConverges(w);
    } else if w.pc.Restoring? && s.files.value != map[] {
      RestoredProgresses(w, AnyName(s.files.value));
    } else if w.pc.Sweeping? {
      SweepConverges(w);
    } else if w.pc.Restoring? || w.pc.Closing? {
      CloseConverges(w);
    }
  }

  /** Left alone, recovery finishes from wherever earlier crashes left it. */
  lemma {:induction false} RecoveryFinishes(w: World) returns (acts: seq<Action>)
    requires Recoverable(w) && w.disk.stage.Some?
    ensures forall a | a in acts :: a.Recover? || a.Advance? || a.Touch?
    ensures Run(w, acts).disk == Settled(w.disk)
    decreases Work(w.disk), PcRank(w.pc)
  {
    var a := NextAction(w);
    var v := Step(w, a);
    NextIsQuiet(w);
    hide *;
    QuietStep(w, a);
    NextWorldIsNext(w);
    NextWorldProgresses(w);
    NextCloser(w, v);
    RunOne(w, a);
    if v.disk.stage.None? {
      SettledEmpty(v.disk);
      acts := [a];
    } else {
      var rest := RecoveryFinishes(v);
      acts := [a] + rest;
      RunAppend(w, [a], rest);
    }
  }

  lemma NextIsQuiet(w: World)
    ensures var a := NextAction(w); (a.Recover? || a.Advance? || a.Touch?) && Quiet(a)
  {}

  lemma NextCloser(w: World, v: World)
    requires Converges(w, v) && Progresses(w, v)
    ensures Recoverable(v) && Settled(v.disk) == Settled(w.disk)
    ensures Work(v.disk) < Work(w.disk) || (Work(v.disk) == Work(w.disk) && PcRank(v.pc) < PcRank(w.pc))
  {
    hide Recoverable, Settled, Work, PcRank;
  }

  lemma RunOne(w: World, a: Action)
    ensures Run(w, [a]) == Step(w, a)
  {
    assert [a][1..] == [];
    assert Run(Step(w, a), []) == Step(w, a);
  }

  lemma SettledEmpty(d: Disk)
    requires d.stage.None?
    ensures Settled(d) == d
  {}

  /**
   Recovery is idempotent under its own crashes: whatever crashes and restarts it goes through,
   it ends, if it ends, where one uninterrupted recovery of the same disk ends; and it can always end.
   */
  lemma RecoveryConverges(w: World, acts: seq<Action>) returns (whole: seq<Action>)
    requires w.pc.Idle? && Clear(w.disk) && w.disk.stage.Some?
    requires forall a | a in acts :: Quiet(a)
    ensures forall a | a in whole :: a.Recover? || a.Advance? || a.Touch?
    ensures Run(w, whole).disk.stage.None?
    ensures Run(w, acts).disk.stage.None? ==> Run(w, acts).disk == Run(w, whole).disk
    ensures Run(w, acts).disk == w.disk || Work(Run(w, acts).disk) < Work(w.disk)
  {
    QuietRun(w, acts);
    whole := RecoveryFinishes(w);
  }

  // ---------------------------------------------------------------- the limit of the guarantee

  /** The names of a live directory, staged ones included, that are gone after a recovery. */
  predicate Dropped(before: Disk, after: Disk, id: nat, name: Name) {
    && id in before.dirs && name in Staged(before, id) + before.dirs[id]
    && !(id in after.dirs && name in after.dirs[id])
  }

  /** What a recovery is about to drop: staged files of a directory that lives, but not where it was, and lacks their names. */
  predicate AtRisk(d: Disk, id: nat, name: Name) {
    && d.stage.Some? && !NothingStaged(d.stage.value) && Gone(d, d.stage.value)
    && d.stage.value.journal.Written? && d.stage.value.journal.checkout == id && id in d.dirs
    && name in d.stage.value.files.value && name !in d.dirs[id]
  }

  lemma SettledDropsExactly(d: Disk, id: nat, name: Name)
    requires Clear(d) && d.stage.Some?
    ensures Dropped(d, Settled(d), id, name) <==> AtRisk(d, id, name)
  {}

  /**
   Of the names that a directory has or has staged, recovery drops exactly those at risk before it
   started, whatever crashes and restarts it goes through.
   */
  lemma RecoveryDropsExactly(w: World, acts: seq<Action>, id: nat, name: Name)
    requires w.pc.Idle? && Clear(w.disk) && w.disk.stage.Some?
    requires (forall a | a in acts :: Quiet(a)) && Run(w, acts).disk.stage.None?
    ensures Dropped(w.disk, Run(w, acts).disk, id, name) <==> AtRisk(w.disk, id, name)
  {
    QuietRun(w, acts);
    SettledDropsExactly(w.disk, id, name);
  }

  /** Moving a checkout whose staged files it lacks, before a crash, always leads to their loss. */
  lemma RelocatingLoses(w: World, id: nat, name: Name) returns (acts: seq<Action>)
    requires Inv(w) && w.disk.path == Some(id) && HasStaged(w.disk, id) && !HasFolder(w.disk.stage.value.files.value)
    requires name in w.disk.stage.value.files.value && name !in w.disk.dirs[id]
    ensures var v := Run(w, [Relocate, Crash] + acts);
      v.disk.stage.None? && id in v.disk.dirs && name !in v.disk.dirs[id] && v.written == w.written
  {
    var u := Step(Step(w, Relocate), Crash);
    assert [Relocate, Crash][1..] == [Crash] && [Crash][1..] == [];
    assert Run(w, [Relocate, Crash]) == Run(Step(w, Relocate), [Crash]) == Run(u, []);
    acts := RecoveryFinishes(u);
    RunAppend(w, [Relocate, Crash], acts);
    OnlyRecoveryWritesNothing(w, [Relocate, Crash] + acts);
  }

  lemma {:induction false} RunLast(w: World, acts: seq<Action>, a: Action)
    ensures Run(w, acts + [a]) == Step(Run(w, acts), a)
    decreases |acts|
  {
    if acts == [] {
      assert Run(w, [a]) == Run(Step(w, a), []);
    } else {
      assert (acts + [a])[1..] == acts[1..] + [a];
      RunLast(Step(w, acts[0]), acts[1..], a);
    }
  }

  const CONFIG: Tree := map["config.pbtxt" := File(1)]

  /** The one file of the checkout is staged, and the rest of the removal is still to come. */
  function ConfigStaged(): World {
    World(Disk(Some(0), map[0 := map[]], Some(Stage(Written(0, CONFIG.Keys), Some(CONFIG), false))),
          Moving(0, CONFIG), map[0 := CONFIG], map[], 3)
  }

  /** The worlds on the way there. */
  function OnTheWay(i: nat): World {
    var w := Start(CONFIG, 2);
    if i == 0 then w
    else if i == 1 then w.(pc := Listed(0, CONFIG))
    else if i == 2 then w.(pc := Admitted(0, CONFIG))
    else if i == 3 then WithStage(w, Some(Stage(Absent, None, false)), StageMade(0, CONFIG))
    else if i == 4 then WithStage(w, Some(Stage(Absent, Some(map[]), false)), FilesMade(0, CONFIG))
    else if i == 5 then WithStage(w, Some(Stage(Torn, Some(map[]), false)), JournalOpen(0, CONFIG))
    else WithStage(w, Some(Stage(Written(0, CONFIG.Keys), Some(map[]), false)),
                   if i == 6 then JournalSaved(0, CONFIG) else Moving(0, CONFIG))
  }

  lemma OnTheWayStep(i: nat)
    requires i < 7
    ensures Step(OnTheWay(i), if i == 0 then Begin else Advance) == OnTheWay(i + 1)
  {
    assert !HasFolder(CONFIG);
    match i
    case 0 =>
    case 1 =>
    case 2 =>
    case _ =>
  }

  lemma OnTheWayEnd()
    ensures Step(OnTheWay(7), Touch("config.pbtxt")) == ConfigStaged()
  {
    var w := OnTheWay(7);
    assert w.disk.dirs[0] == CONFIG && CONFIG - {"config.pbtxt"} == map[];
    assert w.disk.dirs[0 := map[]] == map[0 := map[]];
    assert map["config.pbtxt" := CONFIG["config.pbtxt"]] == CONFIG;
  }

  lemma ReachConfigStaged() returns (acts: seq<Action>)
    ensures Run(Start(CONFIG, 2), acts) == ConfigStaged()
  {
    acts := [];
    for i := 0 to 7
      invariant Run(Start(CONFIG, 2), acts) == OnTheWay(i)
    {
      var a := if i == 0 then Begin else Advance;
      OnTheWayStep(i);
      RunLast(Start(CONFIG, 2), acts, a);
      acts := acts + [a];
    }
    OnTheWayEnd();
    RunLast(Start(CONFIG, 2), acts, Touch("config.pbtxt"));
    acts := acts + [Touch("config.pbtxt")];
  }

  lemma {:induction false} RunAppend(w: World, a: seq<Action>, b: seq<Action>)
    ensures Run(w, a + b) == Run(Run(w, a), b)
    decreases |a|
  {
    if a == [] {
      assert a + b == b;
    } else {
      assert (a + b)[1..] == a[1..] + b;
      RunAppend(Step(w, a[0]), a[1..], b);
    }
  }

  /** A run in which that happens: the checkout's only file is gone, though the checkout is not. */
  lemma RelocationLosesMetadata() returns (acts: seq<Action>)
    ensures var w := Run(Start(CONFIG, 2), acts);
      w.disk.stage.None? && 0 in w.disk.dirs && "config.pbtxt" !in w.disk.dirs[0] && w.written == map[0 := CONFIG]
  {
    var before := ReachConfigStaged();
    InvStart(CONFIG, 2);
    InvRun(Start(CONFIG, 2), before);
    assert !HasFolder(CONFIG) && "config.pbtxt" in CONFIG;
    var rest := RelocatingLoses(ConfigStaged(), 0, "config.pbtxt");
    RunAppend(Start(CONFIG, 2), before, [Relocate, Crash] + rest);
    acts := before + ([Relocate, Crash] + rest);
  }

  lemma {:induction false} OnlyRecoveryWritesNothing(w: World, acts: seq<Action>)
    requires forall a | a in acts :: !a.Produce? && !a.Recreate?
    ensures Run(w, acts).written == w.written
    decreases |acts|
  {
    if acts != [] {
      OnlyProducersWrite(w, acts[0]);
      OnlyRecoveryWritesNothing(Step(w, acts[0]), acts[1..]);
    }
  }
}
