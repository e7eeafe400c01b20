/**
 The two routines of gateway/model_cleanup.py as they run undisturbed, updating the directories
 in place. Recovery reaches the disk that every interrupted recovery converges to.
 */
module CleanupVolume {
  import opened Wrappers
  import opened Cleanup
  import opened CleanupProofs

  class Volume {
    var path: Option<nat>
    var dirs: map<nat, Tree>
    var stage: Option<Stage>

    constructor (path: Option<nat>, dirs: map<nat, Tree>)
      ensures State() == Disk(path, dirs, None)
    {
      this.path, this.dirs, stage := path, dirs, None;
    }

    function State(): Disk
      reads this
    {
      Disk(path, dirs, stage)
    }

    /** `_recover_cleanup_stage`; it reports `false` where the source raises. */
    method RecoverStage() returns (ok: bool)
      requires stage.Some?
      requires path.Some? ==> path.value in dirs
      modifies this
      ensures ok == !Refused(old(State()), old(stage.value))
      ensures State() == if ok then Settled(old(State())) else old(State())
    {
      var s := stage.value;
      if NothingStaged(s) {
        stage := None;
        return true;
      }
      if !s.journal.Written? {
        return false;
      }
      var removed := s.marker;
      if !removed {
        if path.None? {
          removed := true;
        } else if path.value != s.journal.checkout {
          return false;
        }
      }
      if !(s.files.value.Keys <= s.journal.names) || HasFolder(s.files.value) {
        return false;
      }
      RestoreFiles(removed);
      stage := None;
      return true;
    }

    /** The loop over the staged files: each is linked back unless the checkout is gone or has that name, and unlinked. */
    method RestoreFiles(removed: bool)
      requires stage.Some? && stage.value.files.Some? && (!removed ==> path.Some? && path.value in dirs)
      modifies this
      ensures path == old(path) && stage == Some(old(stage).value.(files := Some(map[])))
      ensures dirs == if removed then old(dirs)
        else old(dirs)[path.value := old(stage).value.files.value + old(dirs)[path.value]]
    {
      hide *;
      var s := stage.value;
      var names, files := s.files.value.Keys, s.files.value;
      while names != {}
        invariant names == files.Keys && path == old(path) && stage == Some(s.(files := Some(files)))
        invariant removed ==> dirs == old(dirs)
        invariant !removed ==> path.value in dirs && dirs == old(dirs)[path.value := dirs[path.value]]
        invariant !removed ==> files + dirs[path.value] == s.files.value + old(dirs)[path.value]
        decreases |names|
      {
        var name :| name in names;
        if !removed {
          var id := path.value;
          if name !in dirs[id] {
            UnionLink(files, dirs[id], name);
            dirs := dirs[id := dirs[id][name := files[name]]];
          }
          UnionUnlink(files, dirs[id], name);
        }
        files := files - {name};
        names := names - {name};
        stage := Some(s.(files := Some(files)));
      }
      assert files == map[];
      if !removed { assert files + dirs[path.value] == dirs[path.value]; }
    }

    /** `os.rename` of one entry from directory `id` into the stage. */
    method MoveIn(id: nat, name: Name)
      requires id in dirs && name in dirs[id] && stage.Some? && stage.value.files.Some?
      modifies this
      ensures path == old(path) && dirs == old(dirs)[id := old(dirs)[id] - {name}]
      ensures stage == Some(old(stage).value.(files := Some(old(stage).value.files.value[name := old(dirs)[id][name]])))
    {
      stage := Some(stage.value.(files := Some(stage.value.files.value[name := dirs[id][name]])));
      dirs := dirs[id := dirs[id] - {name}];
    }

    /** The renaming loop: every admitted entry of the checkout ends up in the stage. */
    method StageAll(id: nat)
      requires id in dirs
      modifies this
      ensures path == old(path) && dirs == old(dirs)[id := map[]]
      ensures stage == Some(Stage(Written(id, old(dirs)[id].Keys), Some(old(dirs)[id]), false))
    {
      var snap := dirs[id];
      stage := Some(Stage(Written(id, snap.Keys), Some(map[]), false));
      while dirs[id] != map[]
        invariant path == old(path) && id in dirs && dirs == old(dirs)[id := dirs[id]]
        invariant stage.Some? && stage.value.files.Some?
        invariant stage.value == Stage(Written(id, snap.Keys), stage.value.files, false)
        invariant stage.value.files.value + dirs[id] == snap
        decreases |dirs[id].Keys|
      {
        assert dirs[id].Keys != {};
        var name :| name in dirs[id];
        UnionMove(stage.value.files.value, dirs[id], name);
        assert (dirs[id] - {name}).Keys == dirs[id].Keys - {name};
        MoveIn(id, name);
      }
      assert stage.value.files.value + map[] == stage.value.files.value;
    }

    /**
     `_remove_empty_checkout`: `busy` and `busyAgain` are the two looks at the active links.
     Undisturbed, it removes an inactive checkout without subdirectories and otherwise leaves
     every directory as it found it.
     */
    method RemoveEmptyCheckout(expected: nat, busy: bool, busyAgain: bool) returns (r: Result<bool>)
      requires stage.None?
      requires path.Some? ==> path.value in dirs
      modifies this
      ensures r.Fail? <==> old(path).None?
      ensures r.Ok? ==>
        (r.value <==> old(path) == Some(expected) && !HasFolder(old(dirs)[expected]) && !busy && !busyAgain)
      ensures State() ==
        if r == Ok(true) then Disk(None, old(dirs) - {expected}, None) else old(State())
    {
      if path.None? {
        return Fail;
      }
      var id := path.value;
      var snap := dirs[id];
      if id != expected || busy || HasFolder(snap) {
        return Ok(false);
      }
      StageAll(id);
      if busyAgain {
        var ok := RecoverStage();
        assert snap + map[] == snap && old(dirs)[id := map[]][id := snap] == old(dirs);
        return Ok(false);
      }
      path, dirs := None, dirs - {id};
      stage := Some(stage.value.(marker := true));
      var ok := RecoverStage();
      assert old(dirs)[id := map[]] - {id} == old(dirs) - {id};
      return Ok(true);
    }
  }
}
