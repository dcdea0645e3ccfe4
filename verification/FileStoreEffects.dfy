/** What each operation of the file store does to the queue that its directories show. */
module FileStoreEffects {
  import opened Messages
  import opened Disk
  import opened SortedNames
  import opened AbstractQueue
  import opened Directories

  datatype SettleResult = Moved | NotInProgress | Interrupted

  /** Which file operations of a settle fail: the write before its rename, the directory sync
      after it, the rename back to the in-progress name, the removal of the settling file. */
  datatype SettleFaults = SettleFaults(write: bool, sync: bool, restore: bool, remove: bool) {
    function OnWrite(): WriteFault {
      if write then Unwritten else if sync then Unsynced else Completes
    }
  }

  /** A write fails before the new name exists, or reports an error although it does, because only
      the directory could not be synced. */
  datatype WriteFault = Completes | Unwritten | Unsynced

  ghost predicate Shows(d: Dirs, next: Name, q: Queue) {
    Ordered(d, next) && ViewOf(d) == q
  }

  /** Names that enter pending are new. */
  ghost predicate NamesNew(d: Dirs, next: Name, d': Dirs, next': Name) {
    next <= next' && forall n | n in d'.pending :: n in d.pending || n >= next
  }

  lemma WriteEffect(d: Dirs, next: Name, q: Queue, dir: Dir, c: Raw)
    requires Shows(d, next, q) && (dir == PendingDir || dir == FailedDir)
    ensures Shows(d.Write(Path(dir, next), c), next + 1, q.Append(StageOf(dir), c))
  {
    WriteShows(d, next, dir, c);
  }

  // ---------------------------------------------------------------- claims

  lemma PendingUnclaimed(d: Dirs, next: Name, n: Name)
    requires Ordered(d, next) && n in d.pending
    ensures n !in d.Claimed()
  {
    BelowDisjoint(d.inProgress.Keys, d.pending.Keys);
    BelowDisjoint(d.settling.Keys, d.pending.Keys);
  }

  lemma ClaimEffect(d: Dirs, next: Name, q: Queue, n: Name)
    requires Shows(d, next, q) && Oldest(d.pending, n)
    ensures q.pending == [d.pending[n]] + Rest(q.pending)
    ensures Shows(d.Rename(Path(PendingDir, n), Path(InProgressDir, n)), next,
                  Queue(Rest(q.pending), q.inProgress + [d.pending[n]], q.failed))
  {
    ClaimShows(d, next, n);
  }

  lemma DiscardEffect(d: Dirs, next: Name, q: Queue, n: Name)
    requires Shows(d, next, q) && Oldest(d.pending, n)
    ensures var d' := d.Rename(Path(PendingDir, n), Path(InProgressDir, n));
            && n in d'.inProgress
            && d'.Rename(Path(InProgressDir, n), Path(FailedDir, next))
               == d.Rename(Path(PendingDir, n), Path(FailedDir, next))
    ensures q.pending == [d.pending[n]] + Rest(q.pending)
    ensures Shows(d.Rename(Path(PendingDir, n), Path(FailedDir, next)), next + 1,
                  Queue(Rest(q.pending), q.inProgress, q.failed + [d.pending[n]]))
  {
    DiscardIsOneMove(d, next, n);
    RehomeShows(d, next, Path(PendingDir, n), Path(FailedDir, next));
  }

  lemma NothingPending(d: Dirs, next: Name, q: Queue, listing: seq<Name>)
    requires Shows(d, next, q) && Remaining(d.pending, listing, |listing|)
    ensures q.pending == []
  {
    RemainingDone(d.pending, listing);
  }

  // ---------------------------------------------------------------- acknowledge and settle

  /** The element of file `name` is gone from the in-progress stage. */
  ghost predicate TakenOut(d: Dirs, q: Queue, name: Name, q': Queue) {
    var i := Rank(d.Claimed(), name);
    && name in d.Claimed()
    && i < |q.inProgress| && q.inProgress[i] == d.Claimed()[name]
    && q' == q.(inProgress := RemoveAt(q.inProgress, i))
  }

  lemma TakeOutEffect(d: Dirs, next: Name, q: Queue, name: Name)
    requires Shows(d, next, q) && name in d.inProgress
    ensures Rank(d.Claimed(), name) < |q.inProgress|
    ensures var q' := q.(inProgress := RemoveAt(q.inProgress, Rank(d.Claimed(), name)));
            TakenOut(d, q, name, q') && Shows(d.Remove(Path(InProgressDir, name)), next, q')
  {
    RemovalShows(d, next, Path(InProgressDir, name));
    assert name !in d.settling;
  }

  function Restored(d: Dirs, name: Name, fails: bool): Dirs
    requires name in d.settling
  {
    if fails then d else d.Rename(Path(SettlingDir, name), Path(InProgressDir, name))
  }

  function Begun(d: Dirs, name: Name): Dirs
    requires name in d.Claimed()
    ensures name in Begun(d, name).settling
  {
    if name in d.inProgress then d.Rename(Path(InProgressDir, name), Path(SettlingDir, name)) else d
  }

  function Settled(d: Dirs, next: Name, name: Name, copied: Raw, target: Dir, faults: SettleFaults): Dirs
    requires name in d.settling && (target == PendingDir || target == FailedDir)
  {
    if faults.write then Restored(d, name, faults.restore)
    else
      var d' := d.Write(Path(target, next), copied);
      if faults.sync then Restored(d', name, faults.restore)
      else if faults.remove then d'
      else d'.Remove(Path(SettlingDir, name))
  }

  /** A write that fails early changes nothing that shows. A late fault in the write, a fault in
      the removal, or a stop before it, leaves two copies. Otherwise the new copy replaces the
      claimed element. */
  ghost function SettledQueue(d: Dirs, q: Queue, name: Name, copied: Raw, target: Dir, faults: SettleFaults): Queue
    requires Rank(d.Claimed(), name) < |q.inProgress|
  {
    if faults.write then q
    else if faults.sync || faults.remove then q.Append(StageOf(target), copied)
    else q.(inProgress := RemoveAt(q.inProgress, Rank(d.Claimed(), name))).Append(StageOf(target), copied)
  }

  /** What a settle of a file that is there does. */
  ghost predicate SettleOutcome(d: Dirs, q: Queue, name: Name, copied: Raw, target: Dir, faults: SettleFaults,
                                d': Dirs, q': Queue)
  {
    var i := Rank(d.Claimed(), name);
    && name in d.Claimed()
    && i < |q.inProgress| && q.inProgress[i] == d.Claimed()[name]
    && q' == SettledQueue(d, q, name, copied, target, faults)
    && (if faults.write || faults.sync || faults.remove then d'.Claimed() == d.Claimed()
        else d'.inProgress == d.inProgress - {name} && d'.settling == d.settling - {name})
  }

  lemma BegunEffect(d: Dirs, next: Name, q: Queue, name: Name)
    requires Shows(d, next, q) && name in d.Claimed()
    ensures var begun := Begun(d, name);
            && Shows(begun, next, q) && begun.Claimed() == d.Claimed()
            && begun.inProgress == d.inProgress - {name}
            && begun.settling - {name} == d.settling - {name}
  {
    if name in d.inProgress {
      SettlingShows(d, next, Path(InProgressDir, name), Path(SettlingDir, name));
    }
  }

  lemma RestoredEffect(d: Dirs, next: Name, q: Queue, name: Name, fails: bool)
    requires Shows(d, next, q) && name in d.settling
    ensures Shows(Restored(d, name, fails), next, q) && Restored(d, name, fails).Claimed() == d.Claimed()
  {
    SettlingShows(d, next, Path(SettlingDir, name), Path(InProgressDir, name));
  }

  lemma RemovedEffect(d: Dirs, next: Name, q: Queue, name: Name)
    requires Shows(d, next, q) && name in d.settling
    ensures var i := Rank(d.Claimed(), name);
            && i < |q.inProgress| && q.inProgress[i] == d.Claimed()[name]
            && Shows(d.Remove(Path(SettlingDir, name)), next, q.(inProgress := RemoveAt(q.inProgress, i)))
  {
    RemovalShows(d, next, Path(SettlingDir, name));
  }

  /** A settle from its write on: the write fails early, the new copy stays beside the old file,
      or the new copy replaces it. */
  lemma UnwrittenEffect(d: Dirs, next: Name, q: Queue, name: Name, copied: Raw, target: Dir, faults: SettleFaults)
    requires Shows(d, next, q) && (target == PendingDir || target == FailedDir) && name in d.settling && faults.write
    ensures var d' := Settled(d, next, name, copied, target, faults);
            Shows(d', next, q) && d'.Claimed() == d.Claimed()
  {
    RestoredEffect(d, next, q, name, faults.restore);
  }

  lemma DoubledEffect(d: Dirs, next: Name, q: Queue, name: Name, copied: Raw, target: Dir, faults: SettleFaults)
    requires Shows(d, next, q) && (target == PendingDir || target == FailedDir) && name in d.settling
    requires !faults.write && (faults.sync || faults.remove)
    ensures var d' := Settled(d, next, name, copied, target, faults);
            Shows(d', next + 1, q.Append(StageOf(target), copied)) && d'.Claimed() == d.Claimed()
  {
    hide Ordered; hide ViewOf;
    WriteEffect(d, next, q, target, copied);
    if faults.sync {
      RestoredEffect(d.Write(Path(target, next), copied), next + 1, q.Append(StageOf(target), copied), name,
                     faults.restore);
    }
  }

  lemma AppendThenTake(q: Queue, stage: Stage, c: Raw, i: nat)
    requires i < |q.inProgress| && stage != InProgress
    ensures var q' := q.Append(stage, c);
            q'.(inProgress := RemoveAt(q'.inProgress, i))
            == q.(inProgress := RemoveAt(q.inProgress, i)).Append(stage, c)
  {
  }

  lemma ReplacedEffect(d: Dirs, next: Name, q: Queue, name: Name, copied: Raw, target: Dir, faults: SettleFaults)
    requires Shows(d, next, q) && (target == PendingDir || target == FailedDir) && name in d.settling
    requires !faults.write && !faults.sync && !faults.remove
    requires Rank(d.Claimed(), name) < |q.inProgress|
    ensures var d', i := Settled(d, next, name, copied, target, faults), Rank(d.Claimed(), name);
            && Shows(d', next + 1, q.(inProgress := RemoveAt(q.inProgress, i)).Append(StageOf(target), copied))
            && d'.inProgress == d.inProgress && d'.settling == d.settling - {name}
  {
    hide Ordered; hide ViewOf;
    var d', q' := d.Write(Path(target, next), copied), q.Append(StageOf(target), copied);
    WriteEffect(d, next, q, target, copied);
    assert d'.Claimed() == d.Claimed();
    RemovedEffect(d', next + 1, q', name);
    AppendThenTake(q, StageOf(target), copied, Rank(d.Claimed(), name));
  }

  ghost predicate SettleGoal(d: Dirs, next: Name, q: Queue, name: Name, copied: Raw, target: Dir, faults: SettleFaults)
    requires name in d.Claimed() && (target == PendingDir || target == FailedDir)
  {
    && Rank(d.Claimed(), name) < |q.inProgress|
    && var d' := Settled(Begun(d, name), next, name, copied, target, faults);
       var q' := SettledQueue(d, q, name, copied, target, faults);
       && Shows(d', next + (if faults.write then 0 else 1), q')
       && SettleOutcome(d, q, name, copied, target, faults, d', q')
  }

  lemma UnwrittenSettle(d: Dirs, next: Name, q: Queue, name: Name, copied: Raw, target: Dir, faults: SettleFaults)
    requires Shows(d, next, q) && (target == PendingDir || target == FailedDir) && name in d.Claimed() && faults.write
    ensures SettleGoal(d, next, q, name, copied, target, faults)
  {
    hide Ordered; hide ViewOf;
    BegunEffect(d, next, q, name);
    RemovedEffect(Begun(d, name), next, q, name);
    UnwrittenEffect(Begun(d, name), next, q, name, copied, target, faults);
  }

  lemma DoubledSettle(d: Dirs, next: Name, q: Queue, name: Name, copied: Raw, target: Dir, faults: SettleFaults)
    requires Shows(d, next, q) && (target == PendingDir || target == FailedDir) && name in d.Claimed()
    requires !faults.write && (faults.sync || faults.remove)
    ensures SettleGoal(d, next, q, name, copied, target, faults)
  {
    hide Ordered; hide ViewOf;
    BegunEffect(d, next, q, name);
    RemovedEffect(Begun(d, name), next, q, name);
    DoubledEffect(Begun(d, name), next, q, name, copied, target, faults);
  }

  lemma ReplacedSettle(d: Dirs, next: Name, q: Queue, name: Name, copied: Raw, target: Dir, faults: SettleFaults)
    requires Shows(d, next, q) && (target == PendingDir || target == FailedDir) && name in d.Claimed()
    requires !faults.write && !faults.sync && !faults.remove
    ensures SettleGoal(d, next, q, name, copied, target, faults)
  {
    hide Ordered; hide ViewOf;
    BegunEffect(d, next, q, name);
    RemovedEffect(Begun(d, name), next, q, name);
    ReplacedEffect(Begun(d, name), next, q, name, copied, target, faults);
  }

  lemma SettleEffect(d: Dirs, next: Name, q: Queue, name: Name, copied: Raw, target: Dir, faults: SettleFaults)
    requires Shows(d, next, q) && (target == PendingDir || target == FailedDir) && name in d.Claimed()
    ensures SettleGoal(d, next, q, name, copied, target, faults)
  {
    if faults.write {
      UnwrittenSettle(d, next, q, name, copied, target, faults);
    } else if faults.sync || faults.remove {
      DoubledSettle(d, next, q, name, copied, target, faults);
    } else {
      ReplacedSettle(d, next, q, name, copied, target, faults);
    }
  }

  lemma SettledNames(d: Dirs, next: Name, name: Name, copied: Raw, target: Dir, faults: SettleFaults)
    requires name in d.Claimed() && (target == PendingDir || target == FailedDir)
    ensures NamesNew(d, next, Settled(Begun(d, name), next, name, copied, target, faults), next)
  {
    assert Begun(d, name).pending == d.pending;
  }

  // ---------------------------------------------------------------- recover

  lemma ClaimedBelow(d: Dirs, next: Name)
    requires Ordered(d, next)
    ensures Below(d.Claimed().Keys, d.pending.Keys)
    ensures |d.Claimed()| == |d.inProgress| + |d.settling|
  {
    assert d.Claimed().Keys == d.inProgress.Keys + d.settling.Keys;
    assert |d.Claimed().Keys| == |d.inProgress.Keys| + |d.settling.Keys|;
  }

  function Recovered(d: Dirs): Dirs {
    Dirs(d.pending + d.inProgress + d.settling, map[], map[], d.failed)
  }

  lemma RecoverOrdered(d: Dirs, next: Name)
    requires Ordered(d, next)
    ensures Ordered(Recovered(d), next)
    ensures Recovered(d).pending == d.Claimed() + d.pending
  {
    BelowDisjoint(d.inProgress.Keys, d.pending.Keys);
    BelowDisjoint(d.settling.Keys, d.pending.Keys);
  }

  lemma RecoverEffect(d: Dirs, next: Name, q: Queue)
    requires Shows(d, next, q)
    ensures Shows(Recovered(d), next, q.Recover().0)
    ensures |d.inProgress| + |d.settling| == q.Recover().1
  {
    assert Contents(map[]) == [];
    hide Contents; hide Ordered;
    RecoverOrdered(d, next);
    ClaimedBelow(d, next);
    ContentsUnion(d.Claimed(), d.pending);
    ContentsLength(d.Claimed());
    assert Recovered(d).Claimed() == map[];
  }

  /** The files in `done`, the first `i` of the listing, have moved from a directory that held
      `m0` to one that held `p0`. */
  ghost predicate Draining(p0: Directories.Files, p: Directories.Files, m0: Directories.Files, m: Directories.Files,
                           listing: seq<Name>, i: nat, done: Directories.Files, moved: nat) {
    && Remaining(m, listing, i)
    && p == p0 + done
    && m.Keys !! done.Keys
    && m + done == m0
    && moved == |done|
  }

  lemma DrainStart(p0: Directories.Files, m0: Directories.Files, listing: seq<Name>)
    requires Remaining(m0, listing, 0)
    ensures Draining(p0, p0, m0, m0, listing, 0, map[], 0)
  {
  }

  lemma DrainEnd(p0: Directories.Files, p: Directories.Files, m0: Directories.Files, m: Directories.Files,
                 listing: seq<Name>, done: Directories.Files, moved: nat)
    requires Draining(p0, p, m0, m, listing, |listing|, done, moved)
    ensures m == map[] && p == p0 + m0 && moved == |m0|
  {
    RemainingDone(m, listing);
  }

  lemma DrainOne(p0: Directories.Files, p: Directories.Files, m0: Directories.Files, m: Directories.Files,
                 listing: seq<Name>, i: nat, done: Directories.Files, moved: nat)
    requires Draining(p0, p, m0, m, listing, i, done, moved) && i < |listing|
    ensures listing[i] in m
    ensures Draining(p0, p[listing[i] := m[listing[i]]], m0, m - {listing[i]},
                     listing, i + 1, done[listing[i] := m[listing[i]]], moved + 1)
  {
    RemainingHead(m, listing, i);
    PlusUpdate(p0, done, listing[i], m[listing[i]]);
    MoveAcross(m, done, listing[i]);
  }

  lemma PlusUpdate(a: Directories.Files, b: Directories.Files, n: Name, c: Raw)
    ensures (a + b)[n := c] == a + b[n := c]
  {
  }

  lemma MoveAcross(m: Directories.Files, done: Directories.Files, n: Name)
    requires m.Keys !! done.Keys && n in m
    ensures (m - {n}) + done[n := m[n]] == m + done
    ensures (m - {n}).Keys !! done[n := m[n]].Keys
    ensures |done[n := m[n]]| == |done| + 1
  {
    assert n !in done;
  }

  // ---------------------------------------------------------------- clear, lengths, peek, republish

  function StageFiles(d: Dirs, stage: Stage): Directories.Files {
    match stage
    case Pending => d.pending
    case InProgress => d.Claimed()
    case Failed => d.failed
  }

  function Cleared(d: Dirs, stage: Stage): Dirs {
    match stage
    case Pending => d.(pending := map[])
    case InProgress => d.(inProgress := map[], settling := map[])
    case Failed => d.(failed := map[])
  }

  lemma RemoveOne(m: Directories.Files, n: Name)
    requires n in m
    ensures |m - {n}| + 1 == |m|
  {
    assert m.Keys == (m - {n}).Keys + {n};
  }

  lemma LengthsAre(d: Dirs, next: Name, q: Queue)
    requires Shows(d, next, q)
    ensures |q.pending| == |d.pending|
    ensures |q.inProgress| == |d.inProgress| + |d.settling|
    ensures |q.failed| == |d.failed|
  {
    ContentsLength(d.pending);
    ContentsLength(d.Claimed());
    ContentsLength(d.failed);
    ClaimedBelow(d, next);
  }

  lemma ClearOrdered(d: Dirs, next: Name, stage: Stage)
    requires Ordered(d, next)
    ensures Ordered(Cleared(d, stage), next)
  {
  }

  lemma ClearEffect(d: Dirs, next: Name, q: Queue, stage: Stage)
    requires Shows(d, next, q)
    ensures Shows(Cleared(d, stage), next, q.Clear(stage).0)
    ensures q.Clear(stage).1 == match stage
                                case Pending => |d.pending|
                                case InProgress => |d.inProgress| + |d.settling|
                                case Failed => |d.failed|
  {
    LengthsAre(d, next, q);
    ClearOrdered(d, next, stage);
    assert Contents(map[]) == [];
    assert stage == InProgress ==> Cleared(d, stage).Claimed() == map[];
  }

  /** The first `i` failed files of queue `q` have moved to pending under new names. */
  ghost predicate Republishing(q: Queue, d0: Dirs, next0: Name, d: Dirs, next: Name, listing: seq<Name>, i: nat) {
    && i <= |q.failed| == |listing|
    && Remaining(d.failed, listing, i)
    && d.inProgress == d0.inProgress && d.settling == d0.settling
    && NamesNew(d0, next0, d, next)
    && Shows(d, next, q.Republish(i).0)
  }

  lemma RepublishStart(d: Dirs, next: Name, q: Queue, listing: seq<Name>)
    requires Shows(d, next, q) && Remaining(d.failed, listing, 0)
    ensures Republishing(q, d, next, d, next, listing, 0)
  {
    LengthsAre(d, next, q);
    SortedMembers(d.failed.Keys);
    assert q.Republish(0).0 == q;
  }

  lemma RepublishStep(q: Queue, d0: Dirs, next0: Name, d: Dirs, next: Name, listing: seq<Name>, i: nat)
    requires Republishing(q, d0, next0, d, next, listing, i) && i < |listing|
    ensures listing[i] in d.failed
    ensures Republishing(q, d0, next0, d.Rename(Path(FailedDir, listing[i]), Path(PendingDir, next)), next + 1,
                         listing, i + 1)
  {
    RemainingHead(d.failed, listing, i);
    RehomeShows(d, next, Path(FailedDir, listing[i]), Path(PendingDir, next));
    RepublishOneMore(q, i);
    RepublishNames(d0, next0, d, next, listing[i]);
  }

  lemma RepublishNames(d0: Dirs, next0: Name, d: Dirs, next: Name, n: Name)
    requires NamesNew(d0, next0, d, next) && n in d.failed
    ensures NamesNew(d0, next0, d.Rename(Path(FailedDir, n), Path(PendingDir, next)), next + 1)
  {
  }

  lemma RepublishOneMore(q: Queue, i: nat)
    requires i < |q.failed|
    ensures var q' := q.Republish(i).0;
            && q'.failed != [] && q.Republish(i + 1).0 == q'.With(Failed, Rest(q'.failed)).Append(Pending, q'.failed[0])
  {
    assert q.failed[..i + 1] == q.failed[..i] + [q.failed[i]];
  }
}
