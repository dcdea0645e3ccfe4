/** The file driver of `store.rs`, one call at a time, refining AbstractQueue. */
module FileStore {
  import opened Integers
  import opened Messages
  import opened Disk
  import opened SortedNames
  import opened AbstractQueue
  import opened Directories
  import opened FileStoreEffects

  datatype FileDelivery = FileDelivery(name: Name, envelope: Envelope)

  class FileStore {
    var dirs: Dirs
    /** Names issued later are larger (dir.rs:10-13). */
    var next: Name
    /** The lane as its files show it, oldest first. */
    ghost var queue: Queue

    ghost predicate Valid()
      reads this
    {
      Shows(dirs, next, queue)
    }

    constructor ()
      ensures Valid() && queue == Queue([], [], []) && dirs.settling == map[]
    {
      dirs, next, queue := Dirs(map[], map[], map[], map[]), 0, Queue([], [], []);
    }

    /** The sorted listing of one directory. */
    method ListMessages(dir: Dir) returns (names: seq<Name>)
      ensures Remaining(dirs.Get(dir), names, 0)
    {
      names := Sorted(dirs.Get(dir).Keys);
    }

    method RenameIfPresent(from: Path, to: Path) returns (found: bool)
      modifies this`dirs
      ensures found == (from.name in old(dirs).Get(from.dir))
      ensures dirs == if found then old(dirs).Rename(from, to) else old(dirs)
    {
      found := from.name in dirs.Get(from.dir);
      if found {
        dirs := dirs.Rename(from, to);
      }
    }

    method RemoveIfPresent(path: Path) returns (found: bool)
      modifies this`dirs
      ensures found == (path.name in old(dirs).Get(path.dir))
      ensures dirs == if found then old(dirs).Remove(path) else old(dirs)
    {
      found := path.name in dirs.Get(path.dir);
      if found {
        dirs := dirs.Remove(path);
      }
    }

    /** Writes a file under a new name. An error does not say whether the file exists. */
    method WriteAtomic(dir: Dir, contents: Raw, fault: WriteFault) returns (ok: bool)
      modifies this`dirs, this`next
      ensures ok <==> fault == Completes
      ensures fault == Unwritten ==> dirs == old(dirs) && next == old(next)
      ensures fault != Unwritten ==> dirs == old(dirs).Write(Path(dir, old(next)), contents) && next == old(next) + 1
    {
      if fault == Unwritten {
        return false;
      }
      dirs, next := dirs.Write(Path(dir, next), contents), next + 1;
      ok := fault != Unsynced;
    }

    /** A publish that reports an error has published its message all the same if the error came
        from the sync. */
    method Publish(envelope: Envelope, fault: WriteFault) returns (ok: bool)
      requires Valid()
      modifies this
      ensures Valid() && (ok <==> fault == Completes)
      ensures queue == if fault == Unwritten then old(queue) else old(queue).Publish(envelope)
      ensures dirs.inProgress == old(dirs).inProgress && dirs.settling == old(dirs).settling
      ensures NamesNew(old(dirs), old(next), dirs, next)
    {
      WriteEffect(dirs, next, queue, PendingDir, Message(envelope));
      ok := WriteAtomic(PendingDir, Message(envelope), fault);
      queue := if fault == Unwritten then queue else queue.Append(Pending, Message(envelope));
    }

    /** Any file that arrives in pending after the others, such as one that another program
        wrote and that does not parse. */
    method Insert(contents: Raw)
      requires Valid()
      modifies this
      ensures Valid() && queue == old(queue).Append(Pending, contents)
      ensures dirs.inProgress == old(dirs).inProgress && dirs.settling == old(dirs).settling
      ensures NamesNew(old(dirs), old(next), dirs, next)
    {
      WriteEffect(dirs, next, queue, PendingDir, contents);
      var _ := WriteAtomic(PendingDir, contents, Completes);
      queue := queue.Append(Pending, contents);
    }

    /** Claims the oldest pending message, and moves the unreadable ones before it to failed. */
    method ClaimOldest() returns (delivery: Option<FileDelivery>)
      requires Valid()
      modifies this
      ensures Valid() && queue == old(queue).Claim().0
      ensures dirs.settling == old(dirs).settling
      ensures match old(queue).Claim().1
              case None => delivery == None && dirs.inProgress == old(dirs).inProgress
              case Some(stored) =>
                && delivery.Some? && delivery.value.envelope == stored.CountAttempt()
                && delivery.value.name !in old(dirs).Claimed()
                && dirs.inProgress == old(dirs).inProgress[delivery.value.name := Message(stored)]
                && delivery.value.name in old(dirs).pending && delivery.value.name !in dirs.pending
      ensures NamesNew(old(dirs), old(next), dirs, next)
    {
      var listing := ListMessages(PendingDir);
      for i := 0 to |listing|
        invariant Valid() && Remaining(dirs.pending, listing, i)
        invariant queue.Claim() == old(queue).Claim()
        invariant next >= old(next) && dirs.pending.Keys <= old(dirs).pending.Keys
        invariant dirs.inProgress == old(dirs).inProgress && dirs.settling == old(dirs).settling
      {
        var name := listing[i];
        RemainingHead(dirs.pending, listing, i);
        PendingUnclaimed(dirs, next, name);
        match dirs.pending[name] {
          case Message(envelope) =>
            ClaimEffect(dirs, next, queue, name);
            var _ := RenameIfPresent(Path(PendingDir, name), Path(InProgressDir, name));
            queue := Queue(Rest(queue.pending), queue.inProgress + [Message(envelope)], queue.failed);
            return Some(FileDelivery(name, envelope.CountAttempt()));
          case Malformed(_) =>
            Discard(name);
        }
      }
      NothingPending(dirs, next, queue, listing);
      return None;
    }

    /** The claim of an unreadable message followed by its move to failed. */
    method Discard(name: Name)
      requires Valid() && Oldest(dirs.pending, name)
      modifies this
      ensures Valid() && dirs.pending == old(dirs).pending - {name} && next >= old(next)
      ensures dirs.inProgress == old(dirs).inProgress && dirs.settling == old(dirs).settling
      ensures var q := old(queue);
              && q.pending == [old(dirs).pending[name]] + Rest(q.pending)
              && queue == Queue(Rest(q.pending), q.inProgress, q.failed + [old(dirs).pending[name]])
    {
      DiscardEffect(dirs, next, queue, name);
      queue := Queue(Rest(queue.pending), queue.inProgress, queue.failed + [dirs.pending[name]]);
      var _ := RenameIfPresent(Path(PendingDir, name), Path(InProgressDir, name));
      var _ := RenameIfPresent(Path(InProgressDir, name), Path(FailedDir, next));
      next := next + 1;
    }

    /** An acknowledge looks only for the in-progress name. */
    method Acknowledge(name: Name) returns (found: bool)
      requires Valid()
      modifies this
      ensures Valid() && found == (name in old(dirs).inProgress)
      ensures !found ==> dirs == old(dirs) && queue == old(queue)
      ensures found ==> TakenOut(old(dirs), old(queue), name, queue)
      ensures NamesNew(old(dirs), old(next), dirs, next)
      ensures dirs.inProgress == old(dirs).inProgress - {name} && dirs.settling == old(dirs).settling
    {
      if name in dirs.inProgress {
        TakeOutEffect(dirs, next, queue, name);
        queue := queue.(inProgress := RemoveAt(queue.inProgress, Rank(dirs.Claimed(), name)));
      }
      found := RemoveIfPresent(Path(InProgressDir, name));
    }

    /** Moves a claimed message to the end of `target` as a new file with the given envelope. */
    method MoveClaimed(name: Name, envelope: Envelope, target: Dir, faults: SettleFaults)
      returns (result: SettleResult)
      requires Valid() && (target == PendingDir || target == FailedDir)
      modifies this
      ensures Valid()
      ensures NamesNew(old(dirs), old(next), dirs, next)
      ensures name !in old(dirs).Claimed() ==> result == NotInProgress && dirs == old(dirs) && queue == old(queue)
      ensures name in old(dirs).Claimed() ==>
                && SettleOutcome(old(dirs), old(queue), name, Message(envelope), target, faults, dirs, queue)
                && result == if faults.write || faults.sync then Interrupted else Moved
    {
      if name in dirs.Claimed() {
        SettleEffect(dirs, next, queue, name, Message(envelope), target, faults);
        SettledNames(dirs, next, name, Message(envelope), target, faults);
        queue := SettledQueue(dirs, queue, name, Message(envelope), target, faults);
      }
      result := SettleFile(name, envelope, target, faults);
    }

    /** The file operations of a settle. */
    method SettleFile(name: Name, envelope: Envelope, target: Dir, faults: SettleFaults)
      returns (result: SettleResult)
      requires target == PendingDir || target == FailedDir
      modifies this`dirs, this`next
      ensures name !in old(dirs).Claimed() ==> result == NotInProgress && dirs == old(dirs) && next == old(next)
      ensures name in old(dirs).Claimed() ==>
                && dirs == Settled(Begun(old(dirs), name), old(next), name, Message(envelope), target, faults)
                && next == old(next) + (if faults.write then 0 else 1)
                && result == if faults.write || faults.sync then Interrupted else Moved
    {
      var current, claimed := Path(InProgressDir, name), Path(SettlingDir, name);
      var renamed := RenameIfPresent(current, claimed);
      if !renamed && name !in dirs.settling {
        return NotInProgress;
      }
      result := CopyAndRemove(name, envelope, target, faults);
    }

    /** The rest of a settle, from its write on. The removal always finds the settling file here,
        because no other call runs in between. */
    method CopyAndRemove(name: Name, envelope: Envelope, target: Dir, faults: SettleFaults)
      returns (result: SettleResult)
      requires name in dirs.settling && (target == PendingDir || target == FailedDir)
      modifies this`dirs, this`next
      ensures dirs == Settled(old(dirs), old(next), name, Message(envelope), target, faults)
      ensures next == old(next) + (if faults.write then 0 else 1)
      ensures result == if faults.write || faults.sync then Interrupted else Moved
    {
      var written := WriteAtomic(target, Message(envelope), faults.OnWrite());
      if !written {
        RestoreSettling(name, faults.restore);
        return Interrupted;
      }
      if faults.remove {
        return Moved;
      }
      var removed := RemoveIfPresent(Path(SettlingDir, name));
      return Moved;
    }

    /** A settle that failed gives the file its in-progress name back, if it can. */
    method RestoreSettling(name: Name, fails: bool)
      requires name in dirs.settling
      modifies this`dirs
      ensures dirs == Restored(old(dirs), name, fails)
    {
      if !fails {
        var _ := RenameIfPresent(Path(SettlingDir, name), Path(InProgressDir, name));
      }
    }

    /** Returns every in-progress and settling file to pending under its base name. */
    method Recover() returns (moved: nat)
      requires Valid()
      modifies this
      ensures Valid() && queue == old(queue).Recover().0 && moved == old(queue).Recover().1
      ensures moved == |old(queue).inProgress| - |queue.inProgress| && queue.inProgress == []
      ensures dirs == Recovered(old(dirs)) && next == old(next)
    {
      hide Ordered; hide ViewOf;
      ghost var d, q := dirs, queue;
      moved := ReturnFiles();
      queue := q.Recover().0;
      RecoverEffect(d, next, q);
    }

    method ReturnFiles() returns (moved: nat)
      modifies this`dirs
      ensures dirs == Recovered(old(dirs))
      ensures moved == |old(dirs).inProgress| + |old(dirs).settling|
    {
      moved := ReturnInProgress();
      var settling := ReturnSettling();
      moved := moved + settling;
    }

    method ReturnInProgress() returns (moved: nat)
      modifies this`dirs
      ensures dirs == old(dirs).(inProgress := map[], pending := old(dirs).pending + old(dirs).inProgress)
      ensures moved == |old(dirs).inProgress|
    {
      ghost var d, done: Directories.Files := dirs, map[];
      var listing := ListMessages(InProgressDir);
      moved := 0;
      DrainStart(dirs.pending, dirs.inProgress, listing);
      for i := 0 to |listing|
        invariant dirs == d.(inProgress := dirs.inProgress, pending := dirs.pending)
        invariant Draining(d.pending, dirs.pending, d.inProgress, dirs.inProgress, listing, i, done, moved)
      {
        DrainOne(d.pending, dirs.pending, d.inProgress, dirs.inProgress, listing, i, done, moved);
        done := done[listing[i] := dirs.inProgress[listing[i]]];
        var found := RenameIfPresent(Path(InProgressDir, listing[i]), Path(PendingDir, listing[i]));
        if found {
          moved := moved + 1;
        }
      }
      DrainEnd(d.pending, dirs.pending, d.inProgress, dirs.inProgress, listing, done, moved);
    }

    method ReturnSettling() returns (moved: nat)
      modifies this`dirs
      ensures dirs == old(dirs).(settling := map[], pending := old(dirs).pending + old(dirs).settling)
      ensures moved == |old(dirs).settling|
    {
      ghost var d, done: Directories.Files := dirs, map[];
      var listing := ListMessages(SettlingDir);
      moved := 0;
      DrainStart(dirs.pending, dirs.settling, listing);
      for i := 0 to |listing|
        invariant dirs == d.(settling := dirs.settling, pending := dirs.pending)
        invariant Draining(d.pending, dirs.pending, d.settling, dirs.settling, listing, i, done, moved)
      {
        DrainOne(d.pending, dirs.pending, d.settling, dirs.settling, listing, i, done, moved);
        done := done[listing[i] := dirs.settling[listing[i]]];
        var found := RenameIfPresent(Path(SettlingDir, listing[i]), Path(PendingDir, listing[i]));
        if found {
          moved := moved + 1;
        }
      }
      DrainEnd(d.pending, dirs.pending, d.settling, dirs.settling, listing, done, moved);
    }

    /** Removes every file of one directory. */
    method RemoveAll(dir: Dir) returns (removed: nat)
      modifies this`dirs
      ensures dirs == old(dirs).Put(dir, map[]) && removed == |old(dirs).Get(dir)|
    {
      ghost var d := dirs;
      var listing := ListMessages(dir);
      removed := 0;
      for i := 0 to |listing|
        invariant Remaining(dirs.Get(dir), listing, i)
        invariant dirs == d.Put(dir, dirs.Get(dir))
        invariant removed + |dirs.Get(dir)| == |d.Get(dir)|
      {
        RemainingHead(dirs.Get(dir), listing, i);
        RemoveOne(dirs.Get(dir), listing[i]);
        var found := RemoveIfPresent(Path(dir, listing[i]));
        if found {
          removed := removed + 1;
        }
      }
      RemainingDone(dirs.Get(dir), listing);
    }

    method Clear(stage: Stage) returns (removed: nat)
      requires Valid()
      modifies this
      ensures Valid() && queue == old(queue).Clear(stage).0 && removed == old(queue).Clear(stage).1
      ensures removed == |old(queue).Get(stage)| && queue.Get(stage) == []
      ensures dirs == Cleared(old(dirs), stage) && next == old(next)
    {
      ClearEffect(dirs, next, queue, stage);
      queue := queue.Clear(stage).0;
      match stage {
        case Pending => removed := RemoveAll(PendingDir);
        case Failed => removed := RemoveAll(FailedDir);
        case InProgress =>
          removed := RemoveAll(InProgressDir);
          var settling := RemoveAll(SettlingDir);
          removed := removed + settling;
      }
    }

    method Lengths() returns (pending: nat, inProgress: nat, failed: nat)
      requires Valid()
      ensures pending == |queue.pending| && inProgress == |queue.inProgress| && failed == |queue.failed|
    {
      LengthsAre(dirs, next, queue);
      pending, inProgress, failed := |dirs.pending|, |dirs.inProgress| + |dirs.settling|, |dirs.failed|;
    }

    /** Reads the elements after the first `first`, as many as the saturating count says. */
    method Peek(stage: Stage, first: usize, last: usize) returns (messages: seq<Raw>)
      requires Valid()
      ensures first <= last && |queue.Get(stage)| <= USIZE_MAX ==> messages == queue.Peek(stage, first, last)
      ensures last < first ==> messages == queue.Peek(stage, first, first)
    {
      hide Ordered;
      var count := SaturatingAdd(if last < first then 0 else last - first, 1);
      messages := ReadPaths(StageFiles(dirs, stage), first, count);
      ghost var all := Contents(StageFiles(dirs, stage));
      assert all == queue.Get(stage);
    }

    /** The contents of the files at positions `first` up to `first + count`. */
    method ReadPaths(files: Directories.Files, first: nat, count: nat) returns (messages: seq<Raw>)
      ensures var all := Contents(files);
              messages == all[Min(first, |all|)..Min(Min(first, |all|) + count, |all|)]
    {
      hide Sorted;
      hide Contents;
      var paths := Sorted(files.Keys);
      SortedMembers(files.Keys);
      ContentsLength(files);
      messages := [];
      var start := Min(first, |paths|);
      for i := start to Min(start + count, |paths|)
        invariant messages == Contents(files)[start..i]
      {
        ContentsAt(files, i);
        messages := messages + [files[paths[i]]];
      }
    }

    /** Moves the oldest failed messages to the end of pending under new names. */
    method RepublishFailed(limit: nat) returns (moved: nat)
      requires Valid()
      modifies this
      ensures Valid() && queue == old(queue).Republish(limit).0 && moved == old(queue).Republish(limit).1
      ensures moved == |old(queue).failed| - |queue.failed| && moved <= limit && (moved < limit ==> queue.failed == [])
      ensures NamesNew(old(dirs), old(next), dirs, next)
      ensures dirs.inProgress == old(dirs).inProgress && dirs.settling == old(dirs).settling
    {
      hide Ordered; hide ViewOf;
      var listing := ListMessages(FailedDir);
      ghost var d, n, q := dirs, next, queue;
      RepublishStart(d, n, q, listing);
      moved := 0;
      for i := 0 to Min(limit, |listing|)
        invariant queue == q && moved == i && Republishing(q, d, n, dirs, next, listing, i)
      {
        RepublishStep(q, d, n, dirs, next, listing, i);
        var found := RenameIfPresent(Path(FailedDir, listing[i]), Path(PendingDir, next));
        next := next + 1;
        if found {
          moved := moved + 1;
        }
      }
      queue := queue.Republish(moved).0;
      RepublishCounts(q, limit);
    }
  }
}
