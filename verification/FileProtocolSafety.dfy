/** What every interleaving of the file protocol keeps. */
module FileProtocolSafety {
  import opened Messages
  import opened Disk
  import opened FileProtocol

  // ---------------------------------------------------------------- names and births

  ghost predicate Named(s: State, n: Name, id: nat) {
    n in s.born && s.born[n].contents.HasId(id)
  }

  ghost predicate ProcOk(s: State, p: Proc) {
    && (p.Publishing? ==> p.name in s.issued && p.name !in s.born)
    && (p.PublishSyncing? ==> p.name in s.born)
    && (p.ClaimReading? || p.ClaimDiscarding? ==> p.name in s.born)
    && (p.HasDelivery() ==> Named(s, p.name, p.envelope.id))
    && (p.HasCopy() ==>
          && Named(s, p.copy, p.envelope.id)
          && s.born[p.copy].dir == p.target
          && s.born[p.name].time < s.born[p.copy].time)
  }

  ghost predicate FilesOk(s: State) {
    && UniqueNames(s.files)
    && (forall p | p in s.files :: p.name in s.born && s.files[p] == s.born[p.name].contents)
    && (forall n | n in s.born :: n in s.issued && s.born[n].time < s.clock)
  }

  ghost predicate ProcsOk(s: State) {
    forall pid | pid in s.procs :: ProcOk(s, s.procs[pid])
  }

  /** No two processes write the same name. */
  ghost predicate WritersApart(s: State) {
    forall a, b | a in s.procs && b in s.procs && a != b ::
      && (s.procs[a].HasCopy() && s.procs[b].HasCopy() ==> s.procs[a].copy != s.procs[b].copy)
      && (s.procs[a].Publishing? && s.procs[b].Publishing? ==> s.procs[a].name != s.procs[b].name)
  }

  /** Every file is as it was born, and every name is written at most once. */
  ghost predicate Bookkeeping(s: State) {
    FilesOk(s) && ProcsOk(s) && WritersApart(s)
  }

  /** The operation gives a file no name that a file has had, except the one it renames. */
  ghost predicate NamesNew(s: State, op: FsOp) {
    match op
    case Write(path, _) => path.name !in s.born
    case Rename(from, to) => from in s.files ==> to.name == from.name || to.name !in s.born
    case _ => true
  }

  ghost predicate Enabled(s: State, o: Outcome) {
    o.spare.Some? ==> o.spare.value !in s.issued
  }

  lemma OutcomeNamesNew(s: State, p: Proc, move: Move)
    requires FilesOk(s) && ProcOk(s, p) && Enabled(s, Decide(s.files, p, move))
    ensures NamesNew(s, Decide(s.files, p, move).op)
  {
  }

  lemma UniqueAfter(s: State, op: FsOp)
    requires FilesOk(s) && NamesNew(s, op)
    ensures UniqueNames(Perform(s.files, op))
  {
  }

  /** A file keeps the contents of its birth. */
  lemma ContentsAfter(s: State, op: FsOp)
    requires FilesOk(s) && NamesNew(s, op)
    ensures forall p | p in Perform(s.files, op) ::
              p.name in Births(s, op) && Perform(s.files, op)[p] == Births(s, op)[p.name].contents
  {
  }

  lemma FilesStep(s: State, pid: Pid, move: Move)
    requires Bookkeeping(s)
    ensures FilesOk(Apply(s, pid, move))
  {
    hide Decide;
    var p := ProcOf(s, pid);
    var o := Decide(s.files, p, move);
    if Enabled(s, o) {
      OutcomeNamesNew(s, p, move);
      IssuedStep(s, p, move);
      UniqueAfter(s, o.op);
      ContentsAfter(s, o.op);
    }
  }

  lemma IssuedStep(s: State, p: Proc, move: Move)
    requires FilesOk(s) && ProcOk(s, p) && Enabled(s, Decide(s.files, p, move))
    ensures var o := Decide(s.files, p, move);
            (o.op.Write? ==> o.op.path.name in s.issued || o.spare == Some(o.op.path.name))
            && (o.op.Rename? ==> o.op.to.name == o.op.from.name || o.spare == Some(o.op.to.name))
  {
  }

  /** A birth record never changes. */
  ghost predicate BornStays(s: State, s': State) {
    forall n | n in s.born :: n in s'.born && s'.born[n] == s.born[n]
  }

  lemma BornStaysStep(s: State, pid: Pid, move: Move)
    requires Bookkeeping(s)
    ensures BornStays(s, Apply(s, pid, move))
  {
    hide Decide;
    var p := ProcOf(s, pid);
    var o := Decide(s.files, p, move);
    if Enabled(s, o) {
      OutcomeNamesNew(s, p, move);
    }
  }

  /** A process that goes on with a delivery keeps the name and the id it has. */
  lemma DeliveryGoesOn(s: State, p: Proc, move: Move)
    requires ProcOk(s, p) && p.HasDelivery()
    ensures var q := Decide(s.files, p, move).proc;
            q.Idle? || (q.HasDelivery() && q.name == p.name && q.envelope.id == p.envelope.id)
  {
  }

  /** A copy in hand is either the one held before or the file that this step writes. */
  lemma CopyOrigin(s: State, p: Proc, move: Move)
    ensures var o := Decide(s.files, p, move);
            o.proc.HasCopy() ==>
              && p.HasDelivery()
              && ((p.HasCopy() && o.proc.copy == p.copy && o.proc.target == p.target)
                  || o.op == Write(Path(o.proc.target, o.proc.copy), Message(p.envelope)))
  {
  }

  /** Without a delivery in hand, a step names a file that exists, or stays with its name. */
  lemma ClaimGoesOn(s: State, p: Proc, move: Move)
    requires FilesOk(s) && ProcOk(s, p) && !p.HasDelivery()
    ensures var o := Decide(s.files, p, move);
            && (o.proc.ClaimReading? || o.proc.ClaimDiscarding? ==> o.proc.name in s.born)
            && (o.proc.HasDelivery() ==> Named(s, o.proc.name, o.proc.envelope.id))
            && (o.proc.PublishSyncing? ==> (o.op.Write? && o.op.path.name == o.proc.name) || p == o.proc)
            && (o.proc.Publishing? ==> o.op.NoOp? && (o.spare == Some(o.proc.name) || p == o.proc))
  {
  }

  /** The process that moves ends in a consistent state. */
  lemma MoverOk(s: State, pid: Pid, move: Move)
    requires Bookkeeping(s) && Enabled(s, Decide(s.files, ProcOf(s, pid), move))
    ensures ProcOk(Apply(s, pid, move), Decide(s.files, ProcOf(s, pid), move).proc)
  {
    hide Decide;
    var p := ProcOf(s, pid);
    var q := Decide(s.files, p, move).proc;
    BornStaysStep(s, pid, move);
    assert ProcOk(s, p);
    if p.HasDelivery() {
      DeliveryGoesOn(s, p, move);
      CopyOrigin(s, p, move);
      OutcomeNamesNew(s, p, move);
    } else {
      CopyOrigin(s, p, move);
      ClaimGoesOn(s, p, move);
    }
  }

  /** Another process stays consistent. */
  lemma BystanderOk(s: State, pid: Pid, move: Move, other: Pid)
    requires Bookkeeping(s) && other in s.procs && other != pid
    ensures ProcOk(Apply(s, pid, move), s.procs[other])
  {
    hide Decide;
    var p := ProcOf(s, pid);
    var o := Decide(s.files, p, move);
    BornStaysStep(s, pid, move);
    assert ProcOk(s, s.procs[other]) && ProcOk(s, p);
    if Enabled(s, o) && s.procs[other].Publishing? {
      IssuedStep(s, p, move);
      WriteOwner(s, p, move);
    }
  }

  /** A write gives its file a new name, or is the publisher's write of its own name. */
  lemma WriteOwner(s: State, p: Proc, move: Move)
    ensures var o := Decide(s.files, p, move);
            o.op.Write? ==>
              || o.spare == Some(o.op.path.name)
              || (o.spare.None? && p.Publishing? && o.op.path.name == p.name)
  {
  }

  lemma WritersStep(s: State, pid: Pid, move: Move)
    requires Bookkeeping(s)
    ensures WritersApart(Apply(s, pid, move))
  {
    hide Decide;
    var p := ProcOf(s, pid);
    var o := Decide(s.files, p, move);
    var s' := Apply(s, pid, move);
    if Enabled(s, o) {
      assert ProcOk(s, p);
      NewWriter(s, p, move);
      forall a | a in s.procs && a != pid
        ensures o.proc.HasCopy() && s.procs[a].HasCopy() ==> o.proc.copy != s.procs[a].copy
        ensures o.proc.Publishing? && s.procs[a].Publishing? ==> o.proc.name != s.procs[a].name
      {
        assert ProcOk(s, s.procs[a]);
        if pid in s.procs {
          assert p == s.procs[pid];
        }
      }
    }
  }

  /** A process takes up a new copy or a new message to publish only under a new name. */
  lemma NewWriter(s: State, p: Proc, move: Move)
    ensures var o := Decide(s.files, p, move);
            && (o.proc.HasCopy() ==> o.spare == Some(o.proc.copy) || (p.HasCopy() && o.proc.copy == p.copy))
            && (o.proc.Publishing? ==> o.spare == Some(o.proc.name) || (p.Publishing? && o.proc.name == p.name))
  {
  }

  lemma BookkeepingStep(s: State, pid: Pid, move: Move)
    requires Bookkeeping(s)
    ensures Bookkeeping(Apply(s, pid, move))
  {
    hide Decide;
    var o := Decide(s.files, ProcOf(s, pid), move);
    FilesStep(s, pid, move);
    WritersStep(s, pid, move);
    if Enabled(s, o) {
      MoverOk(s, pid, move);
      forall other | other in s.procs && other != pid
        ensures ProcOk(Apply(s, pid, move), s.procs[other])
      {
        BystanderOk(s, pid, move, other);
      }
    }
  }

  // ---------------------------------------------------------------- no loss

  ghost predicate Has(s: State, f: Name, id: nat) {
    Present(s.files, f) && Named(s, f, id)
  }

  /** A file that no settle may still take back. */
  ghost predicate Solid(s: State, f: Name, id: nat) {
    && Has(s, f, id)
    && forall pid | pid in s.procs && s.procs[pid].HasCopy() :: s.procs[pid].copy != f
  }

  ghost predicate SolidAfter(s: State, id: nat, t: int) {
    exists f :: Solid(s, f, id) && s.born[f].time > t
  }

  ghost predicate Fallback(s: State, id: nat, t: nat) {
    exists f :: Has(s, f, id) && (s.born[f].time < t || Solid(s, f, id))
  }

  /** A settle that counts on its new copy can: the copy is there, or a younger file that
      replaced it. */
  ghost predicate CopyKept(s: State, p: Proc) {
    p.CountsOnCopy() && Named(s, p.copy, p.envelope.id) && p.envelope.id in s.live ==>
      Present(s.files, p.copy) || SolidAfter(s, p.envelope.id, s.born[p.copy].time)
  }

  /** A settle that takes its new copy back leaves another file of the message. */
  ghost predicate UndoSafe(s: State, p: Proc) {
    p.HasCopy() && Named(s, p.copy, p.envelope.id) && p.envelope.id in s.live ==>
      Fallback(s, p.envelope.id, s.born[p.copy].time)
  }

  ghost predicate CopiesOk(s: State) {
    forall pid | pid in s.procs :: CopyKept(s, s.procs[pid]) && UndoSafe(s, s.procs[pid])
  }

  ghost predicate HasFile(s: State, id: nat) {
    exists f :: Has(s, f, id)
  }

  ghost predicate NothingLost(s: State) {
    forall id | id in s.live :: HasFile(s, id)
  }

  ghost predicate Safe(s: State) {
    Bookkeeping(s) && CopiesOk(s) && NothingLost(s)
  }

  /** Every file of a message that stays live is still there or has a younger solid successor,
      and a message that was published in this step has a file younger than all before. */
  ghost predicate Inherits(s: State, s': State) {
    && (forall f, id | Has(s, f, id) && id in s'.live :: Has(s', f, id) || SolidAfter(s', id, s.born[f].time))
    && (forall f, id | Solid(s, f, id) && id in s'.live :: Solid(s', f, id) || SolidAfter(s', id, s.born[f].time))
    && (forall id | id in s'.live && id !in s.live :: SolidAfter(s', id, s.clock - 1))
  }

  /** When a process removes a file, it ends the message, finishes a settle, or undoes one. */
  lemma RemovalKinds(s: State, p: Proc, move: Move)
    ensures var o := Decide(s.files, p, move);
            o.op.Remove? ==>
              || o.event == Acknowledged(o.op.path.name)
              || o.event == Cleared(o.op.path.name)
              || (p.SettleRemoving? && o.op == Remove(Path(SettlingDir, p.name)) && o.proc.Idle?)
              || (p.SettleUndoing? && o.op == Remove(Path(p.target, p.copy)) && o.proc.Idle?)
  {
  }

  lemma PathPresent(files: Files, p: Path)
    requires p in files
    ensures Present(files, p.name)
  {
    match p.dir
    case PendingDir => assert p == Path(PendingDir, p.name);
    case InProgressDir => assert p == Path(InProgressDir, p.name);
    case SettlingDir => assert p == Path(SettlingDir, p.name);
    case FailedDir => assert p == Path(FailedDir, p.name);
  }

  /** A name leaves the disk only when its file is removed or takes a new name. */
  lemma NameLeaves(s: State, op: FsOp, f: Name)
    requires FilesOk(s) && NamesNew(s, op)
    requires Present(s.files, f) && !Present(Perform(s.files, op), f)
    ensures (op.Remove? && op.path in s.files && op.path.name == f)
            || (op.Rename? && op.from in s.files && op.from.name == f && op.to.name !in s.born
                && op.to in Perform(s.files, op))
  {
    var d :| Path(d, f) in s.files;
    var files' := Perform(s.files, op);
    if Path(d, f) in files' {
      PathPresent(files', Path(d, f));
    } else if op.Rename? {
      assert op.to in files';
      PathPresent(files', op.to);
    }
  }

  /** A file that takes a new name keeps its message, and no settle can take it back. */
  lemma RenamedIsSolid(s: State, pid: Pid, move: Move, f: Name, id: nat)
    requires Bookkeeping(s) && Enabled(s, Decide(s.files, ProcOf(s, pid), move))
    requires var op := Decide(s.files, ProcOf(s, pid), move).op;
             op.Rename? && op.from in s.files && op.from.name == f && op.to.name !in s.born
    requires Has(s, f, id)
    ensures SolidAfter(Apply(s, pid, move), id, s.clock - 1)
  {
    hide Decide;
    var p := ProcOf(s, pid);
    var o := Decide(s.files, p, move);
    var s' := Apply(s, pid, move);
    var g := o.op.to.name;
    assert o.op.to in s'.files;
    PathPresent(s'.files, o.op.to);
    CopyOrigin(s, p, move);
    assert ProcOk(s, p);
    assert s'.born[g] == Birth(s.files[o.op.from], o.op.to.dir, s.clock);
    forall q | q in s'.procs && s'.procs[q].HasCopy()
      ensures s'.procs[q].copy != g
    {
      assert q != pid ==> ProcOk(s, s.procs[q]);
    }
    assert Solid(s', g, id);
  }

  /** A settle that removes the old file leaves its copy, or what became of it. */
  lemma SettledIsKept(s: State, pid: Pid, move: Move, p: Proc, o: Outcome, id: nat)
    requires Safe(s) && pid in s.procs && p == s.procs[pid] && p.SettleRemoving?
    requires o == Decide(s.files, p, move) && Enabled(s, o) && o.op == Remove(Path(SettlingDir, p.name)) && o.proc.Idle?
    requires Path(SettlingDir, p.name) in s.files && id == p.envelope.id && id in s.live
    ensures SolidAfter(Apply(s, pid, move), id, s.born[p.name].time)
  {
    hide Decide;
    var s' := Apply(s, pid, move);
    assert ProcOk(s, p) && CopyKept(s, p);
    assert Drops(s, pid, o.op.path, s');
    if Present(s.files, p.copy) {
      DropLeaves(s, pid, o.op.path, s', p.copy, id);
      forall q | q in s'.procs && s'.procs[q].HasCopy() ensures s'.procs[q].copy != p.copy {
        assert WritersApart(s) && q != pid;
      }
      assert Solid(s', p.copy, id);
    } else {
      var g :| Solid(s, g, id) && s.born[g].time > s.born[p.copy].time;
      DropLeaves(s, pid, o.op.path, s', g, id);
      assert Solid(s', g, id);
    }
  }

  /** A step that ends a process by removing one file, as far as files and processes go. */
  ghost predicate Drops(s: State, pid: Pid, path: Path, s': State) {
    && s'.files == s.files - {path}
    && s'.procs == s.procs[pid := Idle]
    && s'.born == s.born
  }

  /** Every other file is untouched. */
  lemma DropLeaves(s: State, pid: Pid, path: Path, s': State, f: Name, id: nat)
    requires Drops(s, pid, path, s') && Has(s, f, id) && f != path.name
    ensures Has(s', f, id)
    ensures Solid(s, f, id) ==> Solid(s', f, id)
  {
  }

  /** A file of a message that stays live is still there or has a younger solid successor. */
  lemma FileInherits(s: State, pid: Pid, move: Move, f: Name, id: nat)
    requires Safe(s) && Enabled(s, Decide(s.files, ProcOf(s, pid), move))
    requires !ProcOf(s, pid).SettleUndoing? || !Decide(s.files, ProcOf(s, pid), move).op.Remove?
    requires Has(s, f, id) && id in Apply(s, pid, move).live
    ensures Has(Apply(s, pid, move), f, id) || SolidAfter(Apply(s, pid, move), id, s.born[f].time)
  {
    hide Decide;
    var p := ProcOf(s, pid);
    var o := Decide(s.files, p, move);
    var s' := Apply(s, pid, move);
    BornStaysStep(s, pid, move);
    OutcomeNamesNew(s, p, move);
    if !Present(s'.files, f) {
      NameLeaves(s, o.op, f);
      if o.op.Rename? {
        RenamedIsSolid(s, pid, move, f, id);
      } else {
        RemovalKinds(s, p, move);
        assert s.files[o.op.path] == s.born[f].contents;
        if o.event != Acknowledged(f) && o.event != Cleared(f) {
          assert ProcOk(s, p);
          PublishedKind(s, p, move);
          SettledIsKept(s, pid, move, p, o, id);
        }
      }
    }
  }

  /** A solid file stays solid while it is there. */
  lemma SolidStays(s: State, pid: Pid, move: Move, f: Name, id: nat)
    requires Bookkeeping(s) && Enabled(s, Decide(s.files, ProcOf(s, pid), move))
    requires Solid(s, f, id) && Has(Apply(s, pid, move), f, id)
    ensures Solid(Apply(s, pid, move), f, id)
  {
    hide Decide;
    var p := ProcOf(s, pid);
    CopyOrigin(s, p, move);
    OutcomeNamesNew(s, p, move);
  }

  /** A step that makes a message live has just written its file. */
  lemma NewLifeHasFile(s: State, pid: Pid, move: Move, id: nat)
    requires Safe(s) && Enabled(s, Decide(s.files, ProcOf(s, pid), move))
    requires id in Apply(s, pid, move).live && id !in s.live
    ensures SolidAfter(Apply(s, pid, move), id, s.clock - 1)
  {
    hide Decide;
    var p := ProcOf(s, pid);
    var o := Decide(s.files, p, move);
    var s' := Apply(s, pid, move);
    PublishedKind(s, p, move);
    assert o.event.Published?;
    PathPresent(s'.files, o.op.path);
    CopyOrigin(s, p, move);
    assert ProcOk(s, p);
    forall q | q in s'.procs && s'.procs[q].HasCopy()
      ensures s'.procs[q].copy != p.name
    {
      assert q != pid ==> ProcOk(s, s.procs[q]);
    }
    assert Solid(s', p.name, id);
  }

  lemma PublishedKind(s: State, p: Proc, move: Move)
    ensures var o := Decide(s.files, p, move);
            o.event.Published? ==>
              p.Publishing? && o.op == Write(Path(PendingDir, p.name), Message(p.envelope))
              && o.event.id == p.envelope.id && o.proc == PublishSyncing(p.name, p.envelope)
  {
  }

  lemma StepInherits(s: State, pid: Pid, move: Move)
    requires Safe(s) && Enabled(s, Decide(s.files, ProcOf(s, pid), move))
    requires !ProcOf(s, pid).SettleUndoing? || !Decide(s.files, ProcOf(s, pid), move).op.Remove?
    ensures Inherits(s, Apply(s, pid, move))
  {
    hide Decide;
    var s' := Apply(s, pid, move);
    forall f, id | Has(s, f, id) && id in s'.live
      ensures Has(s', f, id) || SolidAfter(s', id, s.born[f].time)
      ensures Solid(s, f, id) ==> Solid(s', f, id) || SolidAfter(s', id, s.born[f].time)
    {
      FileInherits(s, pid, move, f, id);
      if Solid(s, f, id) && Has(s', f, id) {
        SolidStays(s, pid, move, f, id);
      }
    }
    forall id | id in s'.live && id !in s.live
      ensures SolidAfter(s', id, s.clock - 1)
    {
      NewLifeHasFile(s, pid, move, id);
    }
  }

  /** What a process knew about its copy still holds after a step that keeps every file. */
  lemma CopyStaysOk(s: State, s': State, p: Proc)
    requires Safe(s) && Bookkeeping(s') && BornStays(s, s') && Inherits(s, s')
    requires ProcOk(s, p) && CopyKept(s, p) && UndoSafe(s, p)
    ensures CopyKept(s', p) && UndoSafe(s', p)
  {
    if p.HasCopy() && p.envelope.id in s'.live {
      var id, t := p.envelope.id, s.born[p.copy].time;
      if id !in s.live {
        var g :| Solid(s', g, id) && s'.born[g].time > s.clock - 1;
        assert SolidAfter(s', id, t);
      } else {
        KeptStays(s, s', p, id);
        FallbackStays(s, s', id, t);
      }
    }
  }

  lemma KeptStays(s: State, s': State, p: Proc, id: nat)
    requires Bookkeeping(s) && BornStays(s, s') && Inherits(s, s')
    requires p.HasCopy() && ProcOk(s, p) && CopyKept(s, p)
    requires id == p.envelope.id && id in s.live && id in s'.live
    ensures CopyKept(s', p)
  {
    var t := s.born[p.copy].time;
    if p.CountsOnCopy() {
      if Present(s.files, p.copy) {
        assert Has(s, p.copy, id);
      } else {
        var f :| Solid(s, f, id) && s.born[f].time > t;
        if !Solid(s', f, id) {
          var g :| Solid(s', g, id) && s'.born[g].time > s.born[f].time;
        }
      }
    }
  }

  lemma FallbackStays(s: State, s': State, id: nat, t: nat)
    requires Bookkeeping(s) && BornStays(s, s') && Inherits(s, s')
    requires Fallback(s, id, t) && id in s'.live
    ensures Fallback(s', id, t)
  {
    var f :| Has(s, f, id) && (s.born[f].time < t || Solid(s, f, id));
    if s.born[f].time < t && Has(s', f, id) {
      assert s'.born[f].time < t;
    } else if Has(s', f, id) && Solid(s', f, id) {
    } else {
      var g :| Solid(s', g, id) && s'.born[g].time > s.born[f].time;
      assert Has(s', g, id);
    }
  }

  /** A copy that this step writes is there, and the message has an older file beside it. */
  lemma NewCopyOk(s: State, pid: Pid, move: Move, p: Proc, o: Outcome)
    requires Safe(s) && p == ProcOf(s, pid) && o == Decide(s.files, p, move) && Enabled(s, o)
    requires Inherits(s, Apply(s, pid, move)) && p.HasDelivery()
    requires o.proc.HasCopy() && o.op == Write(Path(o.proc.target, o.proc.copy), Message(p.envelope))
    ensures CopyKept(Apply(s, pid, move), o.proc) && UndoSafe(Apply(s, pid, move), o.proc)
  {
    hide Decide;
    var s' := Apply(s, pid, move);
    assert ProcOk(s, p);
    PathPresent(s'.files, o.op.path);
    BornStaysStep(s, pid, move);
    DeliveryGoesOn(s, p, move);
    var id := p.envelope.id;
    if id in s'.live {
      PublishedKind(s, p, move);
      assert HasFile(s, id);
      var f :| Has(s, f, id);
      assert s'.born[o.proc.copy].time == s.clock;
      if Has(s', f, id) {
        assert s'.born[f].time < s.clock;
      } else {
        var g :| Solid(s', g, id) && s'.born[g].time > s.born[f].time;
        assert Has(s', g, id);
      }
    }
  }

  lemma InheritingStepSafe(s: State, pid: Pid, move: Move)
    requires Safe(s) && Enabled(s, Decide(s.files, ProcOf(s, pid), move))
    requires Inherits(s, Apply(s, pid, move))
    ensures Safe(Apply(s, pid, move))
  {
    hide Decide;
    var p := ProcOf(s, pid);
    var o := Decide(s.files, p, move);
    var s' := Apply(s, pid, move);
    BookkeepingStep(s, pid, move);
    BornStaysStep(s, pid, move);
    assert ProcOk(s, p);
    forall q | q in s'.procs
      ensures CopyKept(s', s'.procs[q]) && UndoSafe(s', s'.procs[q])
    {
      if q != pid {
        CopyStaysOk(s, s', s.procs[q]);
      } else if o.proc.HasCopy() {
        if p.HasCopy() {
          CopyStaysOk(s, s', p);
          CountsDown(s, p, move);
        } else {
          CopyOrigin(s, p, move);
          NewCopyOk(s, pid, move, p, o);
        }
      }
    }
    forall id | id in s'.live
      ensures HasFile(s', id)
    {
      if id in s.live {
        assert HasFile(s, id);
        var f :| Has(s, f, id);
        if !Has(s', f, id) {
          var g :| Solid(s', g, id) && s'.born[g].time > s.born[f].time;
          assert Has(s', g, id);
        }
      } else {
        var g :| Solid(s', g, id) && s'.born[g].time > s.clock - 1;
        assert Has(s', g, id);
      }
    }
  }

  /** A process that no longer counts on its copy does not start to. */
  lemma CountsDown(s: State, p: Proc, move: Move)
    requires p.HasCopy()
    ensures var q := Decide(s.files, p, move).proc;
            q.HasCopy() ==> q.copy == p.copy && q.envelope == p.envelope && (q.CountsOnCopy() ==> p.CountsOnCopy())
  {
  }

  /** The step that takes a new copy back, as far as the files and the processes go. */
  ghost predicate Undoes(s: State, pid: Pid, s': State) {
    && pid in s.procs && s.procs[pid].SettleUndoing?
    && Drops(s, pid, Path(s.procs[pid].target, s.procs[pid].copy), s')
    && s'.live == s.live
  }

  /** Taking a copy back leaves every other settle its own copy. */
  lemma UndoKeepsCopy(s: State, pid: Pid, s': State, q: Proc)
    requires Safe(s) && Undoes(s, pid, s')
    requires ProcOk(s, q) && CopyKept(s, q)
    requires q.HasCopy() && q.copy != s.procs[pid].copy
    ensures CopyKept(s', q)
  {
    var id := q.envelope.id;
    if id in s.live && q.CountsOnCopy() {
      if Present(s.files, q.copy) {
        DropLeaves(s, pid, Path(s.procs[pid].target, s.procs[pid].copy), s', q.copy, id);
      } else {
        var f :| Solid(s, f, id) && s.born[f].time > s.born[q.copy].time;
        DropLeaves(s, pid, Path(s.procs[pid].target, s.procs[pid].copy), s', f, id);
      }
    }
  }

  /** Taking a copy back leaves its message a file that is no younger, or a solid one. */
  lemma UndoKeepsFallback(s: State, pid: Pid, s': State, id: nat, t: nat)
    requires Safe(s) && Undoes(s, pid, s')
    requires id in s.live && Fallback(s, id, t)
    ensures Fallback(s', id, t)
  {
    var p := s.procs[pid];
    assert ProcOk(s, p) && UndoSafe(s, p);
    var f :| Has(s, f, id) && (s.born[f].time < t || Solid(s, f, id));
    if f == p.copy {
      f :| Has(s, f, id) && (s.born[f].time < s.born[p.copy].time || Solid(s, f, id));
    }
    DropLeaves(s, pid, Path(s.procs[pid].target, s.procs[pid].copy), s', f, id);
    assert Has(s', f, id) && (s'.born[f].time < t || Solid(s', f, id));
  }

  lemma UndoKeepsFile(s: State, pid: Pid, s': State, id: nat)
    requires Safe(s) && Undoes(s, pid, s') && id in s.live
    ensures HasFile(s', id)
  {
    var p := s.procs[pid];
    assert ProcOk(s, p) && UndoSafe(s, p) && HasFile(s, id);
    var f :| Has(s, f, id);
    if f == p.copy {
      f :| Has(s, f, id) && (s.born[f].time < s.born[p.copy].time || Solid(s, f, id));
    }
    DropLeaves(s, pid, Path(s.procs[pid].target, s.procs[pid].copy), s', f, id);
  }

  lemma UndoStepSafe(s: State, pid: Pid, s': State)
    requires Safe(s) && Undoes(s, pid, s') && Bookkeeping(s')
    ensures Safe(s')
  {
    forall q | q in s'.procs
      ensures CopyKept(s', s'.procs[q]) && UndoSafe(s', s'.procs[q])
    {
      if q != pid && s.procs[q].HasCopy() {
        assert WritersApart(s) && ProcOk(s, s.procs[q]);
        UndoKeepsCopy(s, pid, s', s.procs[q]);
        if s.procs[q].envelope.id in s.live {
          UndoKeepsFallback(s, pid, s', s.procs[q].envelope.id, s.born[s.procs[q].copy].time);
        }
      }
    }
    forall id | id in s'.live
      ensures HasFile(s', id)
    {
      UndoKeepsFile(s, pid, s', id);
    }
  }

  lemma SafeStep(s: State, pid: Pid, move: Move)
    requires Safe(s)
    ensures Safe(Apply(s, pid, move))
  {
    var p := ProcOf(s, pid);
    var o := Decide(s.files, p, move);
    if Enabled(s, o) {
      if p.SettleUndoing? && o.op.Remove? {
        BookkeepingStep(s, pid, move);
        assert Undoes(s, pid, Apply(s, pid, move));
        UndoStepSafe(s, pid, Apply(s, pid, move));
      } else {
        StepInherits(s, pid, move);
        InheritingStepSafe(s, pid, move);
      }
    }
  }

  lemma StartSafe(s: State)
    requires Starts(s)
    ensures Safe(s)
  {
    forall id | id in s.live ensures HasFile(s, id) {
      var p :| p in s.files && s.files[p].HasId(id);
      PathPresent(s.files, p);
      assert Has(s, p.name, id);
    }
  }

  lemma {:induction false} RunSafe(start: State, steps: seq<Step>, n: nat)
    requires Starts(start) && n <= |steps|
    ensures Safe(Run(start, steps, n))
  {
    if n == 0 {
      StartSafe(start);
    } else {
      RunSafe(start, steps, n - 1);
      SafeStep(Run(start, steps, n - 1), steps[n - 1].pid, steps[n - 1].move);
    }
  }

  lemma ReachableSafe(s: State)
    requires Reachable(s)
    ensures Safe(s)
  {
    hide Safe;
    var start :| Starts(start) && Leads(start, s);
    var steps: seq<Step>, n: nat :| n <= |steps| && s == Run(start, steps, n);
    RunSafe(start, steps, n);
  }

  // ---------------------------------------------------------------- main results

  /** No message is lost. After any interleaving of any number of publishes, claims,
      acknowledges, settles, recoveries, clears and republishes, with failed operations and
      stopped processes anywhere, each message that was published and not acknowledged or cleared
      has a file. */
  lemma NoMessageIsLost(s: State, id: nat)
    requires Reachable(s) && id in s.live
    ensures exists p | p in s.files :: s.files[p].HasId(id)
  {
    ReachableSafe(s);
    assert HasFile(s, id);
    var f :| Has(s, f, id);
    var d :| Path(d, f) in s.files;
    assert s.files[Path(d, f)].HasId(id);
  }

  /** The path that a step gives a file. */
  function PathWritten(op: FsOp): Option<Path> {
    match op
    case Write(path, _) => Some(path)
    case Rename(_, to) => Some(to)
    case _ => None
  }

  /** Each base name belongs to at most one file. */
  lemma NamesStayUnique(s: State)
    requires Reachable(s)
    ensures UniqueNames(s.files)
  {
    ReachableSafe(s);
  }

  /** So no write or rename of any process replaces a file. */
  lemma NoFileIsReplaced(s: State, pid: Pid, move: Move)
    requires Reachable(s)
    ensures ReplacesNothing(s, Decide(s.files, ProcOf(s, pid), move))
  {
    ReachableSafe(s);
    StepReplacesNothing(s, pid, move);
  }

  ghost predicate ReplacesNothing(s: State, o: Outcome) {
    Enabled(s, o) && PathWritten(o.op).Some? && (o.op.Rename? ==> o.op.from in s.files)
    ==> PathWritten(o.op).value !in s.files
  }

  lemma StepReplacesNothing(s: State, pid: Pid, move: Move)
    requires Bookkeeping(s)
    ensures ReplacesNothing(s, Decide(s.files, ProcOf(s, pid), move))
  {
    var p := ProcOf(s, pid);
    var o := Decide(s.files, p, move);
    assert ProcOk(s, p);
    if Enabled(s, o) {
      OutcomeNamesNew(s, p, move);
      RenameMoves(s, p, move);
    }
  }

  /** A rename goes to another directory. */
  lemma RenameMoves(s: State, p: Proc, move: Move)
    ensures var op := Decide(s.files, p, move).op;
            op.Rename? ==> op.from.dir != op.to.dir
  {
  }
}
