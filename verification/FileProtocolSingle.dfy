/** No duplication in the file protocol: when a message has exactly one file. */
module FileProtocolSingle {
  import opened Messages
  import opened Disk
  import opened FileProtocol
  import opened FileProtocolSafety
  import opened FileProtocolClaims

  /** A step that stops no settle between the write of its copy and the removal of its old file,
      recovers and clears no file beside its delivery, and publishes no id that has a file. */
  ghost predicate Tidy(s: State, pid: Pid, move: Move) {
    var p, o := ProcOf(s, pid), Decide(s.files, ProcOf(s, pid), move);
    && !Stops(p, move)
    && Careful(s, pid, move)
    && (o.event.Cleared? ==> !Claimant(s, o.event.name))
    && (o.event.Published? ==> forall path | path in s.files :: !s.files[path].HasId(o.event.id))
  }

  /** The first `n` steps are tidy. */
  ghost predicate TidyRun(start: State, steps: seq<Step>, n: nat)
    requires n <= |steps|
  {
    n == 0 || (TidyRun(start, steps, n - 1) && Tidy(Run(start, steps, n - 1), steps[n - 1].pid, steps[n - 1].move))
  }

  /** A settle of this name has written its copy. */
  ghost predicate Copied(s: State, n: Name) {
    exists pid | pid in s.procs :: s.procs[pid].HasCopy() && s.procs[pid].name == n
  }

  /** The old file of such a settle. */
  ghost predicate Replaced(s: State, path: Path) {
    path.dir == SettlingDir && Copied(s, path.name)
  }

  /** A file of the message, other than one that its settle has replaced. */
  ghost predicate Current(s: State, path: Path, id: nat) {
    path in s.files && s.files[path].HasId(id) && !Replaced(s, path)
  }

  /** A live message has one current file, and every other message none. */
  ghost predicate Single(s: State, id: nat) {
    && (id in s.live <==> exists path :: Current(s, path, id))
    && forall a, b | Current(s, a, id) && Current(s, b, id) :: a == b
  }

  /** A settle finds its old file until it removes it. */
  ghost predicate OldFilesThere(s: State) {
    forall pid | pid in s.procs ::
      && !s.procs[pid].SettleUndoing?
      && (s.procs[pid].SettleWriting? || s.procs[pid].HasCopy() ==> Path(SettlingDir, s.procs[pid].name) in s.files)
  }

  ghost predicate Orderly(s: State) {
    Bookkeeping(s) && ClaimsApart(s) && OldFilesThere(s)
  }

  // ---------------------------------------------------------------- old files

  /** Who touches a settling file. */
  lemma SettlingTouched(s: State, p: Proc, move: Move)
    requires Enabled(s, Decide(s.files, p, move)) && !p.SettleUndoing?
    ensures var o := Decide(s.files, p, move);
            && (o.op.Write? ==> o.op.path.dir != SettlingDir && (p.SettleWriting? || p.Publishing?))
            && (o.op.Remove? && o.op.path.dir == SettlingDir ==>
                  o.event == Cleared(o.op.path.name) || (p.SettleRemoving? && o.op.path.name == p.name))
            && (RemovesOld(p, o) ==> o.op.path == Path(SettlingDir, p.name))
            && (o.op.Rename? && o.op.from.dir == SettlingDir ==>
                  o.event == Returned(o.op.from.name) || (p.SettleRestoring? && o.op.from.name == p.name))
            && (o.op.Rename? && o.op.to.dir == SettlingDir ==> p.Holding? && o.op.to.name == p.name)
  {
  }

  /** A settle writes only with its old file there. */
  lemma MoverHasOldFile(s: State, p: Proc, move: Move)
    requires !p.SettleUndoing? && (p.HasCopy() ==> !move.Fail? && !move.Crash?)
    requires p.SettleWriting? || p.HasCopy() ==> Path(SettlingDir, p.name) in s.files
    ensures var o := Decide(s.files, p, move);
            && !o.proc.SettleUndoing?
            && (o.proc.SettleWriting? || o.proc.HasCopy() ==> Path(SettlingDir, o.proc.name) in Perform(s.files, o.op))
  {
  }

  lemma OldFilesStep(s: State, pid: Pid, move: Move)
    requires Orderly(s) && Tidy(s, pid, move)
    ensures OldFilesThere(Apply(s, pid, move))
  {
    hide Decide;
    var p := ProcOf(s, pid);
    var o := Decide(s.files, p, move);
    MoverHasOldFile(s, p, move);
    if Enabled(s, o) {
      SettlingTouched(s, p, move);
      forall q | q in s.procs && q != pid && (s.procs[q].SettleWriting? || s.procs[q].HasCopy())
        ensures Path(SettlingDir, s.procs[q].name) in Perform(s.files, o.op)
      {
        assert s.procs[q].Claims(s.procs[q].name);
      }
    }
  }

  lemma OrderlyStep(s: State, pid: Pid, move: Move)
    requires Orderly(s) && Tidy(s, pid, move)
    ensures Orderly(Apply(s, pid, move))
  {
    BookkeepingStep(s, pid, move);
    CarefulStep(s, pid, move);
    OldFilesStep(s, pid, move);
  }

  // ---------------------------------------------------------------- current files

  predicate WritesCopy(p: Proc, o: Outcome) {
    p.SettleWriting? && o.op.Write?
  }

  predicate RemovesOld(p: Proc, o: Outcome) {
    p.SettleRemoving? && o.op.Remove?
  }

  /** A settle with its copy written fails or stops. */
  predicate Stops(p: Proc, move: Move) {
    p.HasCopy() && (move.Fail? || move.Crash?)
  }

  lemma MoverCopies(s: State, p: Proc, move: Move)
    requires !p.SettleUndoing? && (p.HasCopy() ==> Path(SettlingDir, p.name) in s.files)
    ensures var o := Decide(s.files, p, move);
            && (o.proc.HasCopy() <==> WritesCopy(p, o) || (p.HasCopy() && !RemovesOld(p, o) && !Stops(p, move)))
            && (o.proc.HasCopy() || RemovesOld(p, o) ==> p.HasDelivery())
            && (o.proc.HasCopy() ==> o.proc.name == p.name)
            && (Stops(p, move) ==> o.op.NoOp? && o.spare == None)
  {
  }

  /** Which names have a settle that has written its copy, after a step. */
  lemma CopiedStep(s: State, pid: Pid, move: Move, n: Name)
    requires Orderly(s) && Enabled(s, Decide(s.files, ProcOf(s, pid), move))
    ensures var p, o := ProcOf(s, pid), Decide(s.files, ProcOf(s, pid), move);
            && Copied(Apply(s, pid, move), n)
               == if WritesCopy(p, o) && p.name == n then true
                  else if (RemovesOld(p, o) || Stops(p, move)) && p.name == n then false
                  else Copied(s, n)
  {
    hide Decide;
    var p := ProcOf(s, pid);
    var o := Decide(s.files, p, move);
    var s' := Apply(s, pid, move);
    MoverCopies(s, p, move);
    assert s'.procs[pid] == o.proc;
    if Copied(s, n) {
      var q :| q in s.procs && s.procs[q].HasCopy() && s.procs[q].name == n;
      assert s.procs[q].Claims(n);
      if q == pid {
        assert o.proc.HasCopy() ==> s'.procs[pid].HasCopy() && s'.procs[pid].name == n;
      } else {
        assert s'.procs[q] == s.procs[q];
      }
    }
    if Copied(s', n) {
      var q :| q in s'.procs && s'.procs[q].HasCopy() && s'.procs[q].name == n;
      if q != pid {
        assert s.procs[q].Claims(n);
        assert (RemovesOld(p, o) || Stops(p, move)) && p.name == n ==> p.Claims(n);
      } else {
        assert p.HasCopy() ==> pid in s.procs && s.procs[pid].HasCopy();
      }
    }
  }

  /** Nothing but the history changes for the message. */
  lemma SingleSame(s: State, s': State, id: nat)
    requires Single(s, id) && (id in s'.live <==> id in s.live)
    requires forall path :: Current(s', path, id) <==> Current(s, path, id)
    ensures Single(s', id)
  {
    if path :| Current(s, path, id) {
      assert Current(s', path, id);
    }
  }

  /** One current file takes the place of another. */
  lemma SingleMoved(s: State, s': State, id: nat, from: Path, to: Path)
    requires Single(s, id) && (id in s'.live <==> id in s.live) && Current(s, from, id)
    requires Current(s', to, id)
    requires forall path | Current(s', path, id) && path != to :: Current(s, path, id) && path != from
    ensures Single(s', id)
  {
  }

  /** The current file of a message goes. */
  lemma SingleEnded(s: State, s': State, id: nat, path: Path)
    requires Single(s, id) && id !in s'.live && Current(s, path, id)
    requires forall other | Current(s', other, id) :: Current(s, other, id) && other != path
    ensures Single(s', id)
  {
  }

  /** A settle that has written the copy of a name is the one that claims it. */
  lemma SoleCopier(s: State, pid: Pid, n: Name)
    requires ClaimsApart(s) && Copied(s, n)
    ensures Claimant(s, n)
    ensures ProcOf(s, pid).Claims(n) ==> ProcOf(s, pid).HasCopy()
  {
    var q :| q in s.procs && s.procs[q].HasCopy() && s.procs[q].name == n;
    assert s.procs[q].Claims(n);
  }

  /** Only the settle itself touches an old file that it has replaced. */
  lemma ReplacedUntouched(s: State, pid: Pid, move: Move)
    requires Orderly(s) && Tidy(s, pid, move) && Enabled(s, Decide(s.files, ProcOf(s, pid), move))
    ensures var p, o := ProcOf(s, pid), Decide(s.files, ProcOf(s, pid), move);
            && (o.op.Remove? && !RemovesOld(p, o) ==> !Replaced(s, o.op.path))
            && (o.op.Rename? ==> !Replaced(s, o.op.from) && !Replaced(s, o.op.to))
            && (o.op.Write? ==> o.op.path.dir != SettlingDir)
            && (WritesCopy(p, o) ==> !Copied(s, p.name))
            && (RemovesOld(p, o) ==> o.op.path == Path(SettlingDir, p.name) && Replaced(s, o.op.path))
  {
    hide Decide;
    var p := ProcOf(s, pid);
    SettlingTouched(s, p, move);
    forall n | Copied(s, n) ensures Claimant(s, n) && (p.Claims(n) ==> p.HasCopy()) {
      SoleCopier(s, pid, n);
    }
  }

  /** What a step reports, by what it does. */
  lemma ReportsBy(s: State, p: Proc, move: Move)
    requires !p.SettleUndoing?
    ensures var o := Decide(s.files, p, move);
            match o.op
            case NoOp => !o.event.Published? && !o.event.Acknowledged? && !o.event.Cleared?
            case Rename(_, _) => !o.event.Published? && !o.event.Acknowledged? && !o.event.Cleared?
            case Write(path, contents) =>
              if WritesCopy(p, o) then contents == Message(p.envelope) && o.event == Quiet
              else contents.Message? && o.event == Published(path.name, contents.envelope.id)
            case Remove(path) =>
              if RemovesOld(p, o) then o.event == Settled(path.name)
              else path in s.files && (o.event == Acknowledged(path.name) || o.event == Cleared(path.name))
  {
  }

  ghost predicate SingleGoal(s: State, pid: Pid, move: Move, id: nat) {
    Orderly(s) && Tidy(s, pid, move) && Enabled(s, Decide(s.files, ProcOf(s, pid), move)) && Single(s, id)
  }

  lemma SingleRename(s: State, pid: Pid, move: Move, id: nat)
    requires SingleGoal(s, pid, move, id) && Decide(s.files, ProcOf(s, pid), move).op.Rename?
    ensures Single(Apply(s, pid, move), id)
  {
    hide Decide;
    hide Copied;
    var p := ProcOf(s, pid);
    var o := Decide(s.files, p, move);
    var s' := Apply(s, pid, move);
    ReportsBy(s, p, move);
    ReplacedUntouched(s, pid, move);
    StepReplacesNothing(s, pid, move);
    forall n ensures Copied(s', n) == Copied(s, n) {
      CopiedStep(s, pid, move, n);
    }
    if o.op.from in s.files && s.files[o.op.from].HasId(id) {
      SingleMoved(s, s', id, o.op.from, o.op.to);
    } else {
      SingleSame(s, s', id);
    }
  }

  lemma SingleWrite(s: State, pid: Pid, move: Move, id: nat)
    requires SingleGoal(s, pid, move, id) && Decide(s.files, ProcOf(s, pid), move).op.Write?
    ensures Single(Apply(s, pid, move), id)
  {
    hide Decide;
    hide Copied;
    var p := ProcOf(s, pid);
    var o := Decide(s.files, p, move);
    var s' := Apply(s, pid, move);
    ReportsBy(s, p, move);
    ReplacedUntouched(s, pid, move);
    StepReplacesNothing(s, pid, move);
    forall n ensures Copied(s', n) == (Copied(s, n) || (WritesCopy(p, o) && n == p.name)) {
      CopiedStep(s, pid, move, n);
    }
    if WritesCopy(p, o) {
      assert ProcOk(s, p);
      var before := Path(SettlingDir, p.name);
      assert before in s.files && s.files[before].HasId(p.envelope.id);
      if id == p.envelope.id {
        SingleMoved(s, s', id, before, o.op.path);
      } else {
        SingleSame(s, s', id);
      }
    } else if id == o.event.id {
      assert Current(s', o.op.path, id);
    } else {
      SingleSame(s, s', id);
    }
  }

  lemma SingleRemove(s: State, pid: Pid, move: Move, id: nat)
    requires SingleGoal(s, pid, move, id) && Decide(s.files, ProcOf(s, pid), move).op.Remove?
    ensures Single(Apply(s, pid, move), id)
  {
    hide Decide;
    hide Copied;
    var p := ProcOf(s, pid);
    var o := Decide(s.files, p, move);
    var s' := Apply(s, pid, move);
    ReportsBy(s, p, move);
    ReplacedUntouched(s, pid, move);
    forall n ensures Copied(s', n) == (Copied(s, n) && !(RemovesOld(p, o) && n == p.name)) {
      CopiedStep(s, pid, move, n);
    }
    if !RemovesOld(p, o) && s.files[o.op.path].HasId(id) {
      SingleEnded(s, s', id, o.op.path);
    } else {
      SingleSame(s, s', id);
    }
  }

  lemma SingleNoOp(s: State, pid: Pid, move: Move, id: nat)
    requires SingleGoal(s, pid, move, id) && Decide(s.files, ProcOf(s, pid), move).op.NoOp?
    ensures Single(Apply(s, pid, move), id)
  {
    hide Decide;
    hide Copied;
    var s' := Apply(s, pid, move);
    ReportsBy(s, ProcOf(s, pid), move);
    forall n ensures Copied(s', n) == Copied(s, n) {
      CopiedStep(s, pid, move, n);
    }
    SingleSame(s, s', id);
  }

  lemma SingleStep(s: State, pid: Pid, move: Move, id: nat)
    requires Orderly(s) && Tidy(s, pid, move) && Single(s, id)
    ensures Single(Apply(s, pid, move), id)
  {
    hide Decide;
    hide Orderly;
    hide Tidy;
    hide Single;
    var o := Decide(s.files, ProcOf(s, pid), move);
    if Enabled(s, o) {
      match o.op {
        case NoOp => SingleNoOp(s, pid, move, id);
        case Write(_, _) => SingleWrite(s, pid, move, id);
        case Rename(_, _) => SingleRename(s, pid, move, id);
        case Remove(_) => SingleRemove(s, pid, move, id);
      }
    }
  }

  // ---------------------------------------------------------------- main result

  /** No two files of the start carry one id. */
  ghost predicate StartsSingle(s: State) {
    && Starts(s)
    && forall p, q, id | p in s.files && q in s.files && s.files[p].HasId(id) && s.files[q].HasId(id) :: p == q
  }

  lemma StartSingle(s: State, id: nat)
    requires StartsSingle(s)
    ensures Orderly(s) && Single(s, id)
  {
    StartSafe(s);
    if path :| path in s.files && s.files[path].HasId(id) {
      assert Current(s, path, id);
    }
  }

  lemma {:induction false} RunSingle(start: State, steps: seq<Step>, n: nat, id: nat)
    requires n <= |steps| && StartsSingle(start) && TidyRun(start, steps, n)
    ensures Orderly(Run(start, steps, n)) && Single(Run(start, steps, n), id)
  {
    hide Apply;
    hide Tidy;
    hide Single;
    hide Orderly;
    if n == 0 {
      StartSingle(start, id);
    } else {
      var s, last := Run(start, steps, n - 1), steps[n - 1];
      RunSingle(start, steps, n - 1, id);
      OrderlyStep(s, last.pid, last.move);
      SingleStep(s, last.pid, last.move, id);
    }
  }

  /** Some tidy steps lead from one state to the other. */
  ghost predicate TidilyLeads(start: State, s: State) {
    exists steps: seq<Step>, n: nat | n <= |steps| :: TidyRun(start, steps, n) && s == Run(start, steps, n)
  }

  ghost predicate TidilyReachable(s: State) {
    exists start :: StartsSingle(start) && TidilyLeads(start, s)
  }

  /** No message is doubled. While no settle stops between its write and its removal, and no
      recovery or clear takes a file beside its delivery, a live message has exactly one file
      besides the old files that settles are about to remove, and a message that was acknowledged
      or cleared has no other. */
  lemma NoMessageIsDoubled(s: State, id: nat)
    requires TidilyReachable(s)
    ensures id in s.live <==> exists path :: Current(s, path, id)
    ensures forall a, b | Current(s, a, id) && Current(s, b, id) :: a == b
  {
    var start :| StartsSingle(start) && TidilyLeads(start, s);
    var steps: seq<Step>, n: nat :| n <= |steps| && TidyRun(start, steps, n) && s == Run(start, steps, n);
    RunSingle(start, steps, n, id);
  }

  // ---------------------------------------------------------------- what doubles a message

  ghost predicate TwoCurrent(s: State, id: nat) {
    exists a, b :: a != b && Current(s, a, id) && Current(s, b, id)
  }

  /** The steps that bring a replaced file back, or write a second file of the id. */
  ghost predicate Doubles(s: State, pid: Pid, move: Move, id: nat) {
    var p, o := ProcOf(s, pid), Decide(s.files, ProcOf(s, pid), move);
    || (Stops(p, move) && p.envelope.id == id)
    || (o.event.Returned? && Replaced(s, o.op.from) && s.files[o.op.from].HasId(id))
    || (o.event.Published? && o.event.id == id)
  }

  /** A tidy step doubles nothing. */
  lemma TidyDoublesNothing(s: State, pid: Pid, move: Move, id: nat)
    requires Orderly(s) && Single(s, id) && Tidy(s, pid, move)
    ensures !TwoCurrent(Apply(s, pid, move), id) && !(id in s.live && Doubles(s, pid, move, id))
  {
    hide Decide;
    hide Apply;
    SingleStep(s, pid, move, id);
    var o := Decide(s.files, ProcOf(s, pid), move);
    EventKinds(s, ProcOf(s, pid), move);
    if o.event.Returned? && Copied(s, o.event.name) {
      SoleCopier(s, pid, o.event.name);
    }
  }

  /** One file becomes current beside those that were. */
  lemma OneMore(s: State, s': State, id: nat, extra: Path)
    requires Single(s, id) && !Current(s, extra, id)
    requires forall path :: Current(s', path, id) <==> Current(s, path, id) || path == extra
    ensures TwoCurrent(s', id) <==> id in s.live
  {
    assert Current(s', extra, id);
    if path :| Current(s, path, id) {
      assert Current(s', path, id);
    }
  }

  lemma NoMore(s: State, s': State, id: nat)
    requires Single(s, id) && forall path | Current(s', path, id) :: Current(s, path, id)
    ensures !TwoCurrent(s', id)
  {
  }

  /** A settle that stops with its copy written brings its old file back. */
  lemma StopDoubles(s: State, pid: Pid, move: Move, id: nat)
    requires Orderly(s) && Single(s, id) && Stops(ProcOf(s, pid), move)
    ensures TwoCurrent(Apply(s, pid, move), id) <==> id in s.live && ProcOf(s, pid).envelope.id == id
  {
    hide Decide;
    hide Copied;
    var p := ProcOf(s, pid);
    var s' := Apply(s, pid, move);
    MoverCopies(s, p, move);
    forall n ensures Copied(s', n) == (Copied(s, n) && n != p.name) {
      CopiedStep(s, pid, move, n);
    }
    assert ProcOk(s, p);
    var before := Path(SettlingDir, p.name);
    assert before in s.files && s.files[before].HasId(p.envelope.id);
    HasCopied(s, pid);
    if id == p.envelope.id {
      OneMore(s, s', id, before);
    } else {
      NoMore(s, s', id);
    }
  }

  lemma HasCopied(s: State, pid: Pid)
    requires ProcOf(s, pid).HasCopy()
    ensures Copied(s, ProcOf(s, pid).name)
  {
    assert pid in s.procs;
  }

  /** A recovery that returns a file beside its delivery. */
  lemma ReturnDoubles(s: State, pid: Pid, move: Move, id: nat)
    requires Orderly(s) && Single(s, id) && Decide(s.files, ProcOf(s, pid), move).event.Returned?
    ensures TwoCurrent(Apply(s, pid, move), id) <==> id in s.live && Doubles(s, pid, move, id)
  {
    hide Decide;
    hide Copied;
    var p := ProcOf(s, pid);
    var o := Decide(s.files, p, move);
    var s' := Apply(s, pid, move);
    EventKinds(s, p, move);
    ReturnerHoldsNothing(s, p, move);
    StepReplacesNothing(s, pid, move);
    forall n ensures Copied(s', n) == Copied(s, n) {
      CopiedStep(s, pid, move, n);
    }
    if !s.files[o.op.from].HasId(id) {
      NoMore(s, s', id);
    } else if Replaced(s, o.op.from) {
      OneMore(s, s', id, o.op.to);
    } else {
      SingleMoved(s, s', id, o.op.from, o.op.to);
    }
  }

  /** A clear beside a delivery leaves no second file. */
  lemma ClearDoublesNothing(s: State, pid: Pid, move: Move, id: nat)
    requires Orderly(s) && Single(s, id) && Decide(s.files, ProcOf(s, pid), move).event.Cleared?
    ensures !TwoCurrent(Apply(s, pid, move), id) && !Doubles(s, pid, move, id)
  {
    hide Decide;
    hide Copied;
    var p := ProcOf(s, pid);
    var s' := Apply(s, pid, move);
    ClearerHoldsNothing(s, p, move);
    EventKinds(s, p, move);
    forall n ensures Copied(s', n) == Copied(s, n) {
      CopiedStep(s, pid, move, n);
    }
    NoMore(s, s', id);
  }

  lemma ClearerHoldsNothing(s: State, p: Proc, move: Move)
    ensures var o := Decide(s.files, p, move);
            o.event.Cleared? ==> !p.HasDelivery() && o.spare == None
  {
  }

  /** A publish of an id in use. */
  lemma PublishDoubles(s: State, pid: Pid, move: Move, id: nat)
    requires Orderly(s) && Single(s, id) && Decide(s.files, ProcOf(s, pid), move).event.Published?
    ensures TwoCurrent(Apply(s, pid, move), id) <==> id in s.live && Doubles(s, pid, move, id)
  {
    hide Decide;
    hide Copied;
    var p := ProcOf(s, pid);
    var o := Decide(s.files, p, move);
    var s' := Apply(s, pid, move);
    PublishedKind(s, p, move);
    WriteOwner(s, p, move);
    StepReplacesNothing(s, pid, move);
    PublishIsEnabled(s, p, move);
    forall n ensures Copied(s', n) == Copied(s, n) {
      CopiedStep(s, pid, move, n);
    }
    if id == o.event.id {
      OneMore(s, s', id, o.op.path);
    } else {
      NoMore(s, s', id);
    }
  }

  lemma PublishIsEnabled(s: State, p: Proc, move: Move)
    ensures Decide(s.files, p, move).event.Published? ==> Decide(s.files, p, move).spare == None
  {
  }

  /** While every message has at most one current file, a step gives a message a second one if and
      only if the message is live and the step stops its settle between the write and the removal,
      returns its replaced file, or publishes its id again. */
  lemma DoubledExactlyWhen(s: State, pid: Pid, move: Move, id: nat)
    requires Orderly(s) && Single(s, id)
    ensures TwoCurrent(Apply(s, pid, move), id) <==> id in s.live && Doubles(s, pid, move, id)
  {
    hide Decide;
    hide Apply;
    hide Single;
    hide TwoCurrent;
    hide Orderly;
    var p, e := ProcOf(s, pid), Decide(s.files, ProcOf(s, pid), move).event;
    if Stops(p, move) {
      StopDoubles(s, pid, move, id);
      StopReports(s, p, move);
    } else if e.Returned? {
      ReturnDoubles(s, pid, move, id);
    } else if e.Cleared? {
      ClearDoublesNothing(s, pid, move, id);
    } else if e.Published? {
      PublishDoubles(s, pid, move, id);
    } else {
      TidyDoublesNothing(s, pid, move, id);
    }
  }

  lemma StopReports(s: State, p: Proc, move: Move)
    requires Stops(p, move)
    ensures var e := Decide(s.files, p, move).event; !e.Returned? && !e.Published?
  {
  }
}
