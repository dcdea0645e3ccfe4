/** The concurrent protocol with one caller at a time is the file store: the same file operations
    in the same order. */
module SerialProtocol {
  import opened Integers
  import opened Messages
  import opened Disk
  import opened Directories
  import opened FileStoreEffects
  import opened SortedNames
  import P = FileProtocol

  /** The same files, as one map and as four. */
  ghost predicate Same(files: Disk.Files, d: Dirs) {
    forall p: Path :: SameAt(files, d, p)
  }

  predicate SameAt(files: Disk.Files, d: Dirs, p: Path) {
    && (p in files <==> p.name in d.Get(p.dir))
    && (p in files ==> files[p] == d.Get(p.dir)[p.name])
  }

  function DirsAfter(d: Dirs, op: FsOp): Dirs {
    match op
    case NoOp => d
    case Write(path, contents) => d.Write(path, contents)
    case Rename(from, to) => if from.name in d.Get(from.dir) then d.Rename(from, to) else d
    case Remove(path) => d.Remove(path)
  }

  lemma GetPut(d: Dirs, dir: Dir, files: Directories.Files, other: Dir)
    ensures d.Put(dir, files).Get(other) == if other == dir then files else d.Get(other)
  {
  }

  lemma SameWrite(files: Disk.Files, d: Dirs, path: Path, contents: Raw, files': Disk.Files, d': Dirs)
    requires Same(files, d) && files' == files[path := contents] && d' == d.Write(path, contents)
    ensures Same(files', d')
  {
    forall p: Path ensures SameAt(files', d', p) {
      assert SameAt(files, d, p);
      GetPut(d, path.dir, d.Get(path.dir)[path.name := contents], p.dir);
    }
  }

  lemma SameRemove(files: Disk.Files, d: Dirs, path: Path, files': Disk.Files, d': Dirs)
    requires Same(files, d) && files' == files - {path} && d' == d.Remove(path)
    ensures Same(files', d')
  {
    forall p: Path ensures SameAt(files', d', p) {
      assert SameAt(files, d, p);
      GetPut(d, path.dir, d.Get(path.dir) - {path.name}, p.dir);
    }
  }

  /** Every file operation does the same to both. */
  lemma SameOp(files: Disk.Files, d: Dirs, op: FsOp, files': Disk.Files, d': Dirs)
    requires Same(files, d) && files' == Perform(files, op) && d' == DirsAfter(d, op)
    ensures Same(files', d')
  {
    match op {
      case NoOp =>
      case Write(path, contents) => SameWrite(files, d, path, contents, files', d');
      case Rename(from, to) =>
        assert SameAt(files, d, from);
        if from in files {
          var files1, d1 := files - {from}, d.Remove(from);
          SameRemove(files, d, from, files1, d1);
          SameWrite(files1, d1, to, files[from], files', d');
        }
      case Remove(path) => SameRemove(files, d, path, files', d');
    }
  }

  /** The moves of a settle that runs alone and meets the given faults. */
  function SettleMoves(d: Dirs, name: Name, attempts: u32, target: P.TargetDir, faults: SettleFaults,
                       spare: Name): seq<P.Move> {
    [P.Settle(attempts, target)] + (if name in d.inProgress then [] else [P.Go(spare, [])]) + WriteMoves(faults, spare)
  }

  function WriteMoves(faults: SettleFaults, spare: Name): seq<P.Move> {
    if faults.write then [P.Fail, RestoreMove(faults)]
    else if faults.sync then [P.Go(spare, []), P.Fail, RestoreMove(faults)]
    else [P.Go(spare, []), P.Go(spare, []), if faults.remove then P.Fail else P.Go(spare, [])]
  }

  function RestoreMove(faults: SettleFaults): P.Move {
    if faults.restore then P.Fail else P.Go(0, [])
  }

  ghost predicate At(s: P.State, pid: P.Pid, proc: P.Proc, d: Dirs) {
    P.ProcOf(s, pid) == proc && Same(s.files, d)
  }

  /** One move, if it asks for no name that is in use. */
  lemma OneMove(s: P.State, pid: P.Pid, proc: P.Proc, d: Dirs, move: P.Move)
    requires At(s, pid, proc, d)
    requires var o := P.Decide(s.files, proc, move); o.spare.Some? ==> o.spare.value !in s.issued
    ensures var o := P.Decide(s.files, proc, move);
            && At(P.Apply(s, pid, move), pid, o.proc, DirsAfter(d, o.op))
            && P.Apply(s, pid, move).issued == s.issued + if o.spare.Some? then {o.spare.value} else {}
  {
    var op := P.Decide(s.files, proc, move).op;
    SameOp(s.files, d, op, P.Apply(s, pid, move).files, DirsAfter(d, op));
  }

  /** A settle up to its write has renamed the file to its settling name, or found it there. */
  lemma SettleBegins(s: P.State, pid: P.Pid, d: Dirs, name: Name, e: Envelope, attempts: u32, target: P.TargetDir,
                     spare: Name, rest: seq<P.Move>) returns (s': P.State)
    requires At(s, pid, P.Holding(name, e), d) && name in d.Claimed()
    ensures At(s', pid, P.SettleWriting(name, e.(attempts := attempts), target), Begun(d, name))
    ensures s'.issued == s.issued
    ensures P.Alone(s', pid, rest)
         == P.Alone(s, pid,
                    [P.Settle(attempts, target)] + (if name in d.inProgress then [] else [P.Go(spare, [])]) + rest)
  {
    var first := P.Settle(attempts, target);
    OneMove(s, pid, P.Holding(name, e), d, first);
    var s1 := P.Apply(s, pid, first);
    assert SameAt(s.files, d, Path(InProgressDir, name)) && SameAt(s.files, d, Path(SettlingDir, name));
    if name in d.inProgress {
      assert [first] + [] + rest == [first] + rest;
      P.AloneStep(s, pid, first, rest);
      s' := s1;
    } else {
      var check := P.Go(spare, []);
      assert At(s1, pid, P.SettleChecking(name, e.(attempts := attempts), target), d);
      OneMove(s1, pid, P.SettleChecking(name, e.(attempts := attempts), target), d, check);
      assert [first] + [check] + rest == [first] + ([check] + rest);
      P.AloneStep(s, pid, first, [check] + rest);
      P.AloneStep(s1, pid, check, rest);
      s' := P.Apply(s1, pid, check);
    }
  }

  /** A restore that fails or succeeds keeps the delivery. */
  lemma RestoreAlone(s: P.State, pid: P.Pid, d: Dirs, name: Name, e: Envelope, faults: SettleFaults)
    requires At(s, pid, P.SettleRestoring(name, e), d) && name in d.settling
    ensures At(P.Alone(s, pid, [RestoreMove(faults)]), pid, P.Holding(name, e), Restored(d, name, faults.restore))
  {
    hide P.Apply;
    OneMove(s, pid, P.SettleRestoring(name, e), d, RestoreMove(faults));
    P.AloneStep(s, pid, RestoreMove(faults), []);
  }

  lemma WriteAlone(s: P.State, pid: P.Pid, d: Dirs, name: Name, e: Envelope, target: P.TargetDir,
                   faults: SettleFaults, spare: Name)
    requires At(s, pid, P.SettleWriting(name, e, target), d) && name in d.settling && spare !in s.issued
    ensures At(P.Alone(s, pid, WriteMoves(faults, spare)), pid,
               if faults.write || faults.sync then P.Holding(name, e) else P.Idle,
               Settled(d, spare, name, Message(e), target, faults))
  {
    hide P.Apply;
    if faults.write {
      OneMove(s, pid, P.SettleWriting(name, e, target), d, P.Fail);
      P.AloneStep(s, pid, P.Fail, [RestoreMove(faults)]);
      RestoreAlone(P.Apply(s, pid, P.Fail), pid, d, name, e, faults);
    } else {
      var go := P.Go(spare, []);
      OneMove(s, pid, P.SettleWriting(name, e, target), d, go);
      var s1, d1 := P.Apply(s, pid, go), d.Write(Path(target, spare), Message(e));
      assert At(s1, pid, P.SettleSyncing(name, e, target, spare), d1);
      P.AloneStep(s, pid, go, WriteMoves(faults, spare)[1..]);
      assert WriteMoves(faults, spare) == [go] + WriteMoves(faults, spare)[1..];
      SyncAlone(s1, pid, d1, name, e, target, spare, faults);
    }
  }

  /** The directories after a settle that has written its copy. */
  function Finished(d: Dirs, name: Name, faults: SettleFaults): Dirs
    requires name in d.settling
  {
    if faults.sync then Restored(d, name, faults.restore)
    else if faults.remove then d
    else d.Remove(Path(SettlingDir, name))
  }

  lemma SyncAlone(s: P.State, pid: P.Pid, d: Dirs, name: Name, e: Envelope, target: P.TargetDir, copy: Name,
                  faults: SettleFaults)
    requires At(s, pid, P.SettleSyncing(name, e, target, copy), d) && name in d.settling && !faults.write
    ensures At(P.Alone(s, pid, WriteMoves(faults, copy)[1..]), pid,
               if faults.sync then P.Holding(name, e) else P.Idle, Finished(d, name, faults))
  {
    hide P.Apply;
    if faults.sync {
      OneMove(s, pid, P.SettleSyncing(name, e, target, copy), d, P.Fail);
      assert WriteMoves(faults, copy)[1..] == [P.Fail] + [RestoreMove(faults)];
      P.AloneStep(s, pid, P.Fail, [RestoreMove(faults)]);
      RestoreAlone(P.Apply(s, pid, P.Fail), pid, d, name, e, faults);
    } else {
      var last := if faults.remove then P.Fail else P.Go(copy, []);
      OneMove(s, pid, P.SettleSyncing(name, e, target, copy), d, P.Go(copy, []));
      assert WriteMoves(faults, copy)[1..] == [P.Go(copy, [])] + [last];
      P.AloneStep(s, pid, P.Go(copy, []), [last]);
      RemoveAlone(P.Apply(s, pid, P.Go(copy, [])), pid, d, name, e, target, copy, last);
    }
  }

  function LastOp(name: Name, last: P.Move): FsOp {
    if last.Fail? then NoOp else Remove(Path(SettlingDir, name))
  }

  lemma RemoveAlone(s: P.State, pid: P.Pid, d: Dirs, name: Name, e: Envelope, target: P.TargetDir, copy: Name,
                    last: P.Move)
    requires At(s, pid, P.SettleRemoving(name, e, target, copy), d) && name in d.settling
    requires last == P.Fail || last == P.Go(copy, [])
    ensures At(P.Alone(s, pid, [last]), pid, P.Idle, DirsAfter(d, LastOp(name, last)))
  {
    hide P.Apply;
    assert SameAt(s.files, d, Path(SettlingDir, name));
    OneMove(s, pid, P.SettleRemoving(name, e, target, copy), d, last);
    P.AloneStep(s, pid, last, []);
  }

  /** A settle of a claimed file that runs alone leaves the files that the store's settle leaves,
      for every combination of faults, and keeps the delivery exactly when the store reports
      Interrupted. */
  lemma SettleAlone(s: P.State, pid: P.Pid, d: Dirs, name: Name, e: Envelope, attempts: u32, target: P.TargetDir,
                    faults: SettleFaults, spare: Name)
    requires At(s, pid, P.Holding(name, e), d) && name in d.Claimed() && spare !in s.issued
    ensures var sent := e.(attempts := attempts);
            At(P.Alone(s, pid, SettleMoves(d, name, attempts, target, faults, spare)), pid,
               if faults.write || faults.sync then P.Holding(name, sent) else P.Idle,
               Settled(Begun(d, name), spare, name, Message(sent), target, faults))
  {
    var sent, rest := e.(attempts := attempts), WriteMoves(faults, spare);
    var s' := SettleBegins(s, pid, d, name, e, attempts, target, spare, rest);
    WriteAlone(s', pid, Begun(d, name), name, sent, target, faults, spare);
  }

  // ---------------------------------------------------------------- recover

  /** `n` file operations of one process. */
  function Repeat(n: nat): seq<P.Move> {
    if n == 0 then [] else [P.Go(0, [])] + Repeat(n - 1)
  }

  /** A process that returns the files of one of the two in-progress directories. */
  function Returning(dir: Dir, names: seq<Name>): P.Proc {
    if dir == InProgressDir then P.Recovering(names) else P.RecoveringSettles(names)
  }

  function Returned(d: Dirs, dir: Dir): Dirs {
    d.Put(dir, map[]).(pending := d.pending + d.Get(dir))
  }

  /** One file goes back, and what is left to return is the rest of the listing. */
  lemma ReturnsOne(d: Dirs, dir: Dir, n: Name)
    requires (dir == InProgressDir || dir == SettlingDir) && n in d.Get(dir)
    ensures var d' := d.Rename(Path(dir, n), Path(PendingDir, n));
            d'.Get(dir) == d.Get(dir) - {n} && Returned(d', dir) == Returned(d, dir)
  {
    var files := d.Get(dir);
    assert d.pending[n := files[n]] + (files - {n}) == d.pending + files;
  }

  lemma ReturnStep(s: P.State, pid: P.Pid, d: Dirs, dir: Dir, names: seq<Name>)
    requires (dir == InProgressDir || dir == SettlingDir) && names != [] && names[0] in d.Get(dir)
    requires At(s, pid, Returning(dir, names), d)
    ensures At(P.Apply(s, pid, P.Go(0, [])), pid, Returning(dir, names[1..]),
               d.Rename(Path(dir, names[0]), Path(PendingDir, names[0])))
  {
    assert SameAt(s.files, d, Path(dir, names[0]));
    OneMove(s, pid, Returning(dir, names), d, P.Go(0, []));
  }

  lemma ListingHead(files: Directories.Files, names: seq<Name>)
    requires names == Sorted(files.Keys) && names != []
    ensures names[0] in files && names[1..] == Sorted((files - {names[0]}).Keys)
  {
    assert (files - {names[0]}).Keys == files.Keys - {names[0]};
  }

  lemma RepeatStep(n: nat, rest: seq<P.Move>)
    requires n > 0
    ensures Repeat(n) + rest == [P.Go(0, [])] + (Repeat(n - 1) + rest)
  {
  }

  lemma {:induction false} ReturnAlone(s: P.State, pid: P.Pid, d: Dirs, dir: Dir, names: seq<Name>, rest: seq<P.Move>)
    returns (s': P.State)
    requires dir == InProgressDir || dir == SettlingDir
    requires At(s, pid, Returning(dir, names), d) && names == Sorted(d.Get(dir).Keys)
    ensures At(s', pid, Returning(dir, []), Returned(d, dir))
    ensures P.Alone(s, pid, Repeat(|names|) + rest) == P.Alone(s', pid, rest)
    decreases |names|
  {
    hide P.Apply;
    hide At;
    if names == [] {
      NothingReturned(d, dir);
      assert Repeat(0) + rest == rest;
      s' := s;
    } else {
      var n, go := names[0], P.Go(0, []);
      ListingHead(d.Get(dir), names);
      ReturnStep(s, pid, d, dir, names);
      ReturnsOne(d, dir, n);
      var d1 := d.Rename(Path(dir, n), Path(PendingDir, n));
      s' := ReturnAlone(P.Apply(s, pid, go), pid, d1, dir, names[1..], rest);
      RepeatStep(|names|, rest);
      P.AloneStep(s, pid, go, Repeat(|names| - 1) + rest);
    }
  }

  lemma NothingReturned(d: Dirs, dir: Dir)
    requires dir == InProgressDir || dir == SettlingDir
    ensures Sorted(d.Get(dir).Keys) == [] ==> Returned(d, dir) == d
  {
    SortedMembers(d.Get(dir).Keys);
    if Sorted(d.Get(dir).Keys) == [] {
      assert d.Get(dir) == map[];
    }
  }

  function RecoverMoves(d: Dirs): seq<P.Move> {
    var names, settles := Sorted(d.inProgress.Keys), Sorted(d.settling.Keys);
    [P.Begin(P.Recover(names))] + (Repeat(|names|) + ([P.Go(0, settles)] + (Repeat(|settles|) + [P.Go(0, [])])))
  }

  /** A move of a recovery that does no file operation. */
  lemma QuietMove(s: P.State, pid: P.Pid, proc: P.Proc, d: Dirs, move: P.Move, next: P.Proc)
    requires At(s, pid, proc, d) && P.Decide(s.files, proc, move) == P.Quietly(next)
    ensures At(P.Apply(s, pid, move), pid, next, d) && P.Apply(s, pid, move).issued == s.issued
  {
  }

  lemma EndsQuietly(s: P.State, pid: P.Pid, proc: P.Proc, d: Dirs)
    requires At(s, pid, proc, d) && P.Decide(s.files, proc, P.Go(0, [])) == P.Quietly(P.Idle)
    ensures At(P.Alone(s, pid, [P.Go(0, [])]), pid, P.Idle, d)
  {
    QuietMove(s, pid, proc, d, P.Go(0, []), P.Idle);
    P.AloneStep(s, pid, P.Go(0, []), []);
  }

  /** A recovery that runs alone puts every in-progress and settling file back into pending, where
      it can be claimed again, as the store's recovery does. */
  lemma RecoverAlone(s: P.State, pid: P.Pid, d: Dirs)
    requires At(s, pid, P.Idle, d)
    ensures At(P.Alone(s, pid, RecoverMoves(d)), pid, P.Idle, Recovered(d))
  {
    hide P.Apply;
    hide P.Alone;
    hide Sorted;
    hide At;
    var names, settles := Sorted(d.inProgress.Keys), Sorted(d.settling.Keys);
    var begin, turn, stop := P.Begin(P.Recover(names)), P.Go(0, settles), P.Go(0, []);
    var last := Repeat(|settles|) + [stop];
    QuietMove(s, pid, P.Idle, d, begin, P.Recovering(names));
    P.AloneStep(s, pid, begin, Repeat(|names|) + ([turn] + last));
    var s1 := ReturnAlone(P.Apply(s, pid, begin), pid, d, InProgressDir, names, [turn] + last);
    var d1 := Returned(d, InProgressDir);
    QuietMove(s1, pid, P.Recovering([]), d1, turn, P.RecoveringSettles(settles));
    P.AloneStep(s1, pid, turn, last);
    var s2 := ReturnAlone(P.Apply(s1, pid, turn), pid, d1, SettlingDir, settles, [stop]);
    EndsQuietly(s2, pid, P.RecoveringSettles([]), Returned(d1, SettlingDir));
    assert Returned(d1, SettlingDir) == Recovered(d);
  }
}
