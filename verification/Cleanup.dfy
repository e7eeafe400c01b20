/**
 Crash-safe removal of an inactive model checkout (gateway/model_cleanup.py).

 The remover moves the checkout's metadata into a stage, removes the checkout with a
 non-recursive `rmdir`, and then either drops or restores the staged files. Every file system
 call is one atomic, durable step. A producer may write into the checkout between any two
 steps, and the process may die, or see any call fail, at any point.
 */
module Cleanup {
  import opened Wrappers

  type Name = string

  /** A directory entry, known by the inode it is bound to. */
  datatype Entry = File(inode: nat) | Folder(inode: nat)

  type Tree = map<Name, Entry>

  /**
   `journal.json` inside the stage. `Torn` is a file created but not completely written; `Foreign` is one
   that names nothing that may be recovered: the directory of the active links, or no plain folder name.
   */
  datatype Journal = Absent | Torn | Foreign | Written(checkout: nat, names: set<Name>)

  /** A `.watcher-cleanup-*` directory: its journal, its `files` directory, its `removed` marker. */
  datatype Stage = Stage(journal: Journal, files: Option<Tree>, marker: bool)

  /** `path` is the directory the checkout's name refers to; `dirs` holds directories by inode. */
  datatype Disk = Disk(path: Option<nat>, dirs: map<nat, Tree>, stage: Option<Stage>)

  /** Where the remover stands between two file system calls. */
  datatype Pc =
    | Idle
    | Listed(id: nat, snap: Tree)        // inventory taken
    | Admitted(id: nat, snap: Tree)      // inventory confirmed
    | StageMade(id: nat, snap: Tree)
    | FilesMade(id: nat, snap: Tree)
    | JournalOpen(id: nat, snap: Tree)
    | JournalSaved(id: nat, snap: Tree)  // written, but `journal_ready` is not yet set
    | Moving(id: nat, snap: Tree)
    | Checked(id: nat, snap: Tree)       // all moved, and the model is still inactive
    | Emptied(id: nat, snap: Tree)       // `rmdir` has succeeded
    | Discarding                         // undoing a stage that never became ready
    | Recovering                         // about to run the recovery routine
    | Sweeping                           // recovery found no staged file
    | Restoring(gone: bool, id: nat)
    | Linked(id: nat, name: Name)        // linked back, not yet unlinked from the stage
    | Closing

  /**
   `written[id]` is what directory `id` would hold had no cleanup ever touched it, and
   `retired[id]` what had been admitted of directory `id` when it was removed. They are history.
   */
  datatype World = World(disk: Disk, pc: Pc, written: map<nat, Tree>, retired: map<nat, Tree>, next: nat)

  datatype Action =
    | Produce(dir: nat, name: Name, folder: bool)  // the producer adds or replaces one entry
    | Recreate                                     // the producer makes the checkout anew
    | Relocate                                     // an operator moves the checkout elsewhere
    | Crash
    | Fault                                        // the pending call raises an exception
    | Begin
    | Recover
    | Advance
    | Touch(name: Name)                            // the pending loop takes this name next
    | Decide(active: bool)

  function Start(tree: Tree, next: nat): World {
    World(Disk(Some(0), map[0 := tree], None), Idle, map[0 := tree], map[], next + 1)
  }

  // ---------------------------------------------------------------- producer and failures

  function Produced(w: World, dir: nat, name: Name, folder: bool): World {
    if dir !in w.disk.dirs || dir !in w.written then w else
      var e := if folder then Folder(w.next) else File(w.next);
      w.(disk := w.disk.(dirs := w.disk.dirs[dir := w.disk.dirs[dir][name := e]]),
         written := w.written[dir := w.written[dir][name := e]],
         next := w.next + 1)
  }

  function Recreated(w: World): World {
    if w.disk.path.Some? then w else
      w.(disk := w.disk.(path := Some(w.next), dirs := w.disk.dirs[w.next := map[]]),
         written := w.written[w.next := map[]],
         next := w.next + 1)
  }

  /** The `finally` block: recover once the journal is ready, otherwise discard the stage. */
  function Raised(w: World): World {
    match w.pc
    case StageMade(_, _) | FilesMade(_, _) | JournalOpen(_, _) | JournalSaved(_, _) => w.(pc := Discarding)
    case Moving(_, _) | Checked(_, _) | Emptied(_, _) => w.(pc := Recovering)
    case _ => w.(pc := Idle)
  }

  // ---------------------------------------------------------------- the remover

  predicate HasFolder(t: Tree) {
    exists n | n in t :: t[n].Folder?
  }

  /** Nothing is started while a stage awaits recovery. */
  function Begun(w: World): World {
    if w.pc.Idle? && w.disk.stage.None? && w.disk.path.Some? && w.disk.path.value in w.disk.dirs
       && !HasFolder(w.disk.dirs[w.disk.path.value])
    then w.(pc := Listed(w.disk.path.value, w.disk.dirs[w.disk.path.value]))
    else w
  }

  function WithStage(w: World, stage: Option<Stage>, pc: Pc): World {
    w.(disk := w.disk.(stage := stage), pc := pc)
  }

  /** The next call of the straight-line parts of the code. */
  function Advanced(w: World): World {
    match w.pc
    case Listed(id, snap) =>
      if id in w.disk.dirs && (forall n | n in snap :: n in w.disk.dirs[id] && w.disk.dirs[id][n] == snap[n])
      then w.(pc := Admitted(id, snap))
      else w.(pc := Idle)
    case Admitted(id, snap) => WithStage(w, Some(Stage(Absent, None, false)), StageMade(id, snap))
    case StageMade(id, snap) => WithStage(w, Some(Stage(Absent, Some(map[]), false)), FilesMade(id, snap))
    case FilesMade(id, snap) => WithStage(w, Some(Stage(Torn, Some(map[]), false)), JournalOpen(id, snap))
    case JournalOpen(id, snap) =>
      WithStage(w, Some(Stage(Written(id, snap.Keys), Some(map[]), false)), JournalSaved(id, snap))
    case JournalSaved(id, snap) => w.(pc := Moving(id, snap))
    case Checked(id, snap) => RemovedCheckout(w, id, snap)
    case Emptied(_, _) =>
      if w.disk.stage.None? then w else
      WithStage(w, Some(w.disk.stage.value.(marker := true)), Recovering)
    case Discarding => DiscardStep(w)
    case Sweeping => if w.disk.stage.None? then w else SweepStep(w, w.disk.stage.value)
    case Restoring(_, _) => if w.disk.stage.None? then w else CloseStep(w, w.disk.stage.value)
    case Closing => if w.disk.stage.None? then w else CloseStep(w, w.disk.stage.value)
    case _ => w
  }

  /** Renames one admitted name into the stage, then compares it with the inventory. */
  function Moved(w: World, id: nat, snap: Tree, s: Stage, name: Name): World {
    if s.files.None? || name in s.files.value || name !in snap then w
    else if id !in w.disk.dirs || name !in w.disk.dirs[id] then w.(pc := Recovering)
    else
      var e := w.disk.dirs[id][name];
      w.(disk := w.disk.(dirs := w.disk.dirs[id := w.disk.dirs[id] - {name}],
                         stage := Some(s.(files := Some(s.files.value[name := e])))),
         pc := if e.Folder? || e.inode != snap[name].inode then Recovering else w.pc)
  }

  /** `rmdir` by name, whatever directory that leads to by now; it succeeds on an empty directory only. */
  function RemovedCheckout(w: World, id: nat, snap: Tree): World {
    if w.disk.path.Some? && w.disk.path.value in w.disk.dirs && w.disk.dirs[w.disk.path.value] == map[]
    then
      var d := w.disk.path.value;
      w.(disk := w.disk.(path := None, dirs := w.disk.dirs - {d}),
         pc := Emptied(id, snap),
         retired := w.retired[d := if d == id then snap else map[]])
    else w.(pc := Recovering)
  }

  function Decided(w: World, active: bool): World {
    if w.pc.Moving? && w.disk.stage.Some? && w.disk.stage.value.files.Some?
       && w.pc.snap.Keys <= w.disk.stage.value.files.value.Keys
    then w.(pc := if active then Recovering else Checked(w.pc.id, w.pc.snap))
    else w
  }

  function DiscardStep(w: World): World {
    match w.disk.stage
    case None => w.(pc := Idle)
    case Some(s) =>
      if s.journal != Absent then WithStage(w, Some(s.(journal := Absent)), Discarding)
      else if s.files.None? then WithStage(w, None, Idle)
      else if s.files.value == map[] then WithStage(w, Some(s.(files := None)), Discarding)
      else w.(pc := Idle)
  }

  // ---------------------------------------------------------------- recovery

  predicate NothingStaged(s: Stage) {
    s.files.None? || s.files.value == map[]
  }

  /** The checkout counts as removed when the marker says so or its name leads nowhere. */
  predicate Gone(d: Disk, s: Stage) {
    s.marker || d.path.None?
  }

  /** Recovery raises, leaving everything where it is. */
  predicate Refused(d: Disk, s: Stage) {
    && !NothingStaged(s)
    && (|| !s.journal.Written?
        || (!Gone(d, s) && d.path.value != s.journal.checkout)
        || !(s.files.value.Keys <= s.journal.names)
        || HasFolder(s.files.value))
  }

  function RecoveryStarted(w: World): World {
    if w.disk.stage.None? || !(w.pc.Idle? || w.pc.Recovering?) then w else
      var s := w.disk.stage.value;
      if NothingStaged(s) then w.(pc := Sweeping)
      else if Refused(w.disk, s) then w.(pc := Idle)
      else w.(pc := Restoring(Gone(w.disk, s), s.journal.checkout))
  }

  /** Links one staged name back unless a newer entry has taken it, or drops it if the checkout is gone. */
  function Restored(w: World, gone: bool, id: nat, s: Stage, name: Name): World {
    if s.files.None? || name !in s.files.value then w
    else if gone then WithStage(w, Some(s.(files := Some(s.files.value - {name}))), w.pc)
    else if id !in w.disk.dirs then w.(pc := Idle)
    else
      var kept := if name in w.disk.dirs[id] then w.disk.dirs[id]
                  else w.disk.dirs[id][name := s.files.value[name]];
      w.(disk := w.disk.(dirs := w.disk.dirs[id := kept]), pc := Linked(id, name))
  }

  function Unlinked(w: World, id: nat, s: Stage, name: Name): World {
    if s.files.None? then w
    else WithStage(w, Some(s.(files := Some(s.files.value - {name}))), Restoring(false, id))
  }

  function Touched(w: World, name: Name): World {
    if w.disk.stage.None? then w else
      match w.pc
      case Moving(id, snap) => Moved(w, id, snap, w.disk.stage.value, name)
      case Restoring(gone, id) => Restored(w, gone, id, w.disk.stage.value, name)
      case Linked(id, linked) => Unlinked(w, id, w.disk.stage.value, linked)
      case Sweeping => SweepMarker(w, w.disk.stage.value)
      case _ => w
  }

  /** Removes the emptied stage: `files`, `removed`, `journal.json`, then the container. */
  function CloseStep(w: World, s: Stage): World {
    if s.files.Some? then
      if s.files.value == map[] then WithStage(w, Some(s.(files := None)), Closing) else w
    else if s.marker then WithStage(w, Some(s.(marker := false)), Closing)
    else if s.journal != Absent then WithStage(w, Some(s.(journal := Absent)), Closing)
    else WithStage(w, None, Idle)
  }

  /** Removes a stage without staged files; the plain files go in either order. */
  function SweepStep(w: World, s: Stage): World {
    if s.files.Some? then WithStage(w, Some(s.(files := None)), Sweeping)
    else if s.journal != Absent then WithStage(w, Some(s.(journal := Absent)), Sweeping)
    else if s.marker then WithStage(w, Some(s.(marker := false)), Sweeping)
    else WithStage(w, None, Idle)
  }

  function SweepMarker(w: World, s: Stage): World {
    if s.files.None? && s.marker then WithStage(w, Some(s.(marker := false)), Sweeping) else w
  }

  // ---------------------------------------------------------------- runs

  /** One step of any party; an action that is not enabled changes nothing. */
  function Step(w: World, a: Action): World {
    match a
    case Produce(dir, name, folder) => Produced(w, dir, name, folder)
    case Recreate => Recreated(w)
    case Relocate => w.(disk := w.disk.(path := None))
    case Crash => w.(pc := Idle)
    case Fault => Raised(w)
    case Begin => Begun(w)
    case Recover => RecoveryStarted(w)
    case Advance => Advanced(w)
    case Touch(name) => Touched(w, name)
    case Decide(active) => Decided(w, active)
  }

  function Run(w: World, acts: seq<Action>): World
    decreases |acts|
  {
    if acts == [] then w else Run(Step(w, acts[0]), acts[1..])
  }
}
