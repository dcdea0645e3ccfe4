/** A clear against a settle in the file protocol: what the holder of a cleared message reports, at
    every interleaving point. FileProtocolStranded says when a copy of the message stays. */
module FileProtocolClear {
  import opened Messages
  import opened Disk
  import opened FileProtocol
  import opened FileProtocolSafety
  import opened FileProtocolClaims

  // ---------------------------------------------------------------- where a new copy goes

  /** Another operation took up the file under this name. */
  ghost predicate TakenUp(s: State, n: Name) {
    s.events[Claimed(n)] > 0 || s.events[Rehomed(n)] > 0 || s.events[Cleared(n)] > 0
  }

  /** The new copy of every settle is where it was written until another operation takes it up. */
  ghost predicate CopiesInPlace(s: State) {
    forall pid | pid in s.procs && s.procs[pid].HasCopy() ::
      InPlace(s, Path(s.procs[pid].target, s.procs[pid].copy))
  }

  /** A file leaves pending or failed by a claim, a new name, a clear, or the undo of its settle. */
  lemma StagedLeaves(s: State, p: Proc, move: Move, path: Path)
    requires path.dir == PendingDir || path.dir == FailedDir
    requires path in s.files && path !in Perform(s.files, Decide(s.files, p, move).op)
    ensures var o := Decide(s.files, p, move);
            || o.event == Claimed(path.name) || o.event == Rehomed(path.name) || o.event == Cleared(path.name)
            || (p.SettleUndoing? && o.op == Remove(path) && path == Path(p.target, p.copy) && o.proc.Idle?)
  {
  }

  /** A file stays in pending or failed until an operation other than its own settle takes it up. */
  ghost predicate InPlace(s: State, path: Path) {
    path in s.files || TakenUp(s, path.name)
  }

  lemma StaysInPlace(s: State, pid: Pid, move: Move, path: Path)
    requires (path.dir == PendingDir || path.dir == FailedDir) && InPlace(s, path)
    requires var p := ProcOf(s, pid); p.SettleUndoing? && p.copy == path.name ==> !Decide(s.files, p, move).proc.Idle?
    ensures InPlace(Apply(s, pid, move), path)
  {
    hide Decide;
    if path in s.files && path !in Apply(s, pid, move).files {
      StagedLeaves(s, ProcOf(s, pid), move, path);
    }
  }

  lemma CopiesStep(s: State, pid: Pid, move: Move)
    requires Bookkeeping(s) && CopiesInPlace(s)
    ensures CopiesInPlace(Apply(s, pid, move))
  {
    hide Decide;
    var p := ProcOf(s, pid);
    var o := Decide(s.files, p, move);
    var s' := Apply(s, pid, move);
    if Enabled(s, o) {
      CopyOrigin(s, p, move);
      forall a | a in s'.procs && s'.procs[a].HasCopy()
        ensures InPlace(s', Path(s'.procs[a].target, s'.procs[a].copy))
      {
        if a != pid {
          assert WritersApart(s);
          StaysInPlace(s, pid, move, Path(s.procs[a].target, s.procs[a].copy));
        } else if p.HasCopy() && o.proc.copy == p.copy && o.proc.target == p.target {
          StaysInPlace(s, pid, move, Path(p.target, p.copy));
        }
      }
    }
  }

  lemma {:induction false} RunCopies(start: State, steps: seq<Step>, n: nat)
    requires Starts(start) && n <= |steps|
    ensures CopiesInPlace(Run(start, steps, n))
  {
    hide Apply;
    if n > 0 {
      RunCopies(start, steps, n - 1);
      RunSafe(start, steps, n - 1);
      CopiesStep(Run(start, steps, n - 1), steps[n - 1].pid, steps[n - 1].move);
    }
  }

  lemma ReachableCopies(s: State)
    requires Reachable(s)
    ensures CopiesInPlace(s)
  {
    hide CopiesInPlace;
    var start :| Starts(start) && Leads(start, s);
    var steps: seq<Step>, n: nat :| n <= |steps| && s == Run(start, steps, n);
    RunCopies(start, steps, n);
  }

  // ---------------------------------------------------------------- what the holder reports

  /** A step that reports its delivery settled. The last of the three is a settle whose removal of
      the old file fails with an error other than its absence. */
  ghost predicate ReportsSuccess(e: Event, n: Name) {
    e == Acknowledged(n) || e == Settled(n) || e == SettledUnremoved(n)
  }

  /** How a step of a process with a delivery can end. */
  lemma DeliveryReports(s: State, p: Proc, move: Move)
    requires p.HasDelivery()
    ensures var o := Decide(s.files, p, move);
      o.proc.HasDelivery() || move.Crash?
      || ReportsSuccess(o.event, p.name)
      || o.event == LostBeforeCopy(p.name)
      || (p.SettleUndoing? && o.event == LostAfterCopy(p.name, p.copy))
  {
  }

  /** Success is reported with the file there, or by a settle that cannot tell. */
  lemma SuccessHasFile(s: State, p: Proc, move: Move)
    requires p.HasDelivery() && ReportsSuccess(Decide(s.files, p, move).event, p.name)
    ensures Present(s.files, p.name) || (p.SettleRemoving? && move.Fail?)
  {
    EventKinds(s, p, move);
    UnremovedKind(s, p, move);
    hide Decide;
    var o := Decide(s.files, p, move);
    if o.event != SettledUnremoved(p.name) {
      PathPresent(s.files, o.op.path);
    }
  }

  lemma UnremovedKind(s: State, p: Proc, move: Move)
    ensures Decide(s.files, p, move).event.SettledUnremoved? ==> p.SettleRemoving? && move.Fail?
  {
  }

  /** Once a clear has removed the file of a delivery, at any point of its settle, no step of the
      process that holds the delivery reports success. The one exception is a removal of the
      settling file that fails with an error other than its absence. */
  lemma ClearBeatsSettle(s: State, pid: Pid, move: Move)
    requires Reachable(s) && ProcOf(s, pid).HasDelivery() && s.events[Cleared(ProcOf(s, pid).name)] > 0
    ensures ReportsSuccess(Decide(s.files, ProcOf(s, pid), move).event, ProcOf(s, pid).name) ==>
              ProcOf(s, pid).SettleRemoving? && move.Fail?
  {
    hide Decide;
    var p := ProcOf(s, pid);
    ReachableEnds(s, p.name);
    if ReportsSuccess(Decide(s.files, p, move).event, p.name) {
      SuccessHasFile(s, p, move);
    }
  }

  /** Unless it crashes or that removal fails, such a process goes on or reports the message
      lost. */
  lemma ClearedSettleEnds(s: State, pid: Pid, move: Move)
    requires Reachable(s) && ProcOf(s, pid).HasDelivery() && s.events[Cleared(ProcOf(s, pid).name)] > 0
    ensures var p := ProcOf(s, pid);
            var o := Decide(s.files, p, move);
            o.proc.HasDelivery() || move.Crash? || o.event == LostBeforeCopy(p.name)
            || (p.SettleRemoving? && move.Fail?)
            || (p.SettleUndoing? && o.event == LostAfterCopy(p.name, p.copy))
  {
    hide Decide;
    ClearBeatsSettle(s, pid, move);
    DeliveryReports(s, ProcOf(s, pid), move);
  }

  lemma LostKind(s: State, p: Proc, move: Move)
    requires p.HasCopy() && Decide(s.files, p, move).event == LostAfterCopy(p.name, p.copy)
    ensures Decide(s.files, p, move).op == Remove(Path(p.target, p.copy)) && Decide(s.files, p, move).spare == None
  {
  }

  /** A settle that reports the message lost after its write removes its new copy in that step. The
      copy was still there, unless another operation claimed, renamed or cleared it in between. */
  lemma LostCopyIsGone(s: State, pid: Pid, move: Move)
    requires Reachable(s) && ProcOf(s, pid).HasCopy()
    requires var p := ProcOf(s, pid); Decide(s.files, p, move).event == LostAfterCopy(p.name, p.copy)
    ensures var p := ProcOf(s, pid);
            && InPlace(s, Path(p.target, p.copy))
            && Apply(s, pid, move).files == s.files - {Path(p.target, p.copy)}
  {
    hide Decide;
    ReachableCopies(s);
    LostKind(s, ProcOf(s, pid), move);
  }

  /** The step of a settle that runs alone and meets no failure. */
  ghost predicate SettleStep(s: State, pid: Pid, spare: Name, s': State) {
    && pid in s.procs && pid in s'.procs
    && match s.procs[pid]
       case SettleWriting(n, e, t) =>
         spare !in s.issued ==>
           && s'.procs[pid] == SettleSyncing(n, e, t, spare)
           && s'.files == s.files[Path(t, spare) := Message(e)]
           && s'.events == s.events + multiset{Quiet}
       case SettleSyncing(n, e, t, c) =>
         s'.procs[pid] == SettleRemoving(n, e, t, c) && s'.files == s.files
         && s'.events == s.events + multiset{Quiet}
       case SettleRemoving(n, e, t, c) =>
         if Path(SettlingDir, n) in s.files then
           s'.procs[pid] == Idle && s'.files == s.files - {Path(SettlingDir, n)}
           && s'.events == s.events + multiset{Settled(n)}
         else s'.procs[pid] == SettleUndoing(n, e, t, c) && s'.files == s.files
              && s'.events == s.events + multiset{Quiet}
       case SettleUndoing(n, e, t, c) =>
         s'.procs[pid] == Idle && s'.files == s.files - {Path(t, c)}
         && s'.events == s.events + multiset{LostAfterCopy(n, c)}
       case _ => true
  }

  lemma SettleStepAlone(s: State, pid: Pid, spare: Name)
    requires pid in s.procs
    ensures SettleStep(s, pid, spare, Apply(s, pid, Go(spare, [])))
  {
  }

  lemma ClearedSettleChain(s: State, pid: Pid, spare: Name, s1: State, s2: State, s3: State, s4: State)
    requires pid in s.procs && s.procs[pid].SettleWriting? && spare !in s.issued
    requires !Present(s.files, s.procs[pid].name) && !Present(s.files, spare) && spare != s.procs[pid].name
    requires SettleStep(s, pid, spare, s1) && SettleStep(s1, pid, spare, s2)
    requires SettleStep(s2, pid, spare, s3) && SettleStep(s3, pid, spare, s4)
    ensures s4.files == s.files && s4.procs[pid] == Idle
    ensures var lost := LostAfterCopy(s.procs[pid].name, spare);
            s4.events[lost] == s.events[lost] + 1
  {
    assert Path(SettlingDir, s.procs[pid].name) !in s2.files;
  }

  lemma FreshIsAbsent(s: State, pid: Pid, spare: Name)
    requires Bookkeeping(s) && pid in s.procs && s.procs[pid].SettleWriting? && spare !in s.issued
    ensures !Present(s.files, spare) && spare != s.procs[pid].name
  {
    assert ProcOk(s, s.procs[pid]);
  }

  /** A settle of a cleared message that runs alone from its write on reports the message lost
      and leaves the files as they were. */
  lemma ClearedSettleAlone(s: State, pid: Pid, spare: Name)
    requires Bookkeeping(s) && pid in s.procs && s.procs[pid].SettleWriting?
    requires !Present(s.files, s.procs[pid].name) && spare !in s.issued
    ensures var go := Go(spare, []);
            var s' := Alone(s, pid, [go, go, go, go]);
            var lost := LostAfterCopy(s.procs[pid].name, spare);
            s'.files == s.files && ProcOf(s', pid) == Idle && s'.events[lost] == s.events[lost] + 1
  {
    FreshIsAbsent(s, pid, spare);
    var go := Go(spare, []);
    var s1 := Apply(s, pid, go);
    var s2 := Apply(s1, pid, go);
    var s3 := Apply(s2, pid, go);
    var s4 := Apply(s3, pid, go);
    assert Alone(s, pid, [go, go, go, go]) == s4 by {
      FourMoves(s, pid, go);
    }
    SettleStepAlone(s, pid, spare);
    SettleStepAlone(s1, pid, spare);
    SettleStepAlone(s2, pid, spare);
    SettleStepAlone(s3, pid, spare);
    hide Apply;
    ClearedSettleChain(s, pid, spare, s1, s2, s3, s4);
  }

  lemma FourMoves(s: State, pid: Pid, m: Move)
    ensures Alone(s, pid, [m, m, m, m]) == Apply(Apply(Apply(Apply(s, pid, m), pid, m), pid, m), pid, m)
  {
    hide Apply;
    var s1 := Apply(s, pid, m);
    var s2 := Apply(s1, pid, m);
    AloneStep(s, pid, m, [m, m, m]);
    AloneStep(s1, pid, m, [m, m]);
    AloneStep(s2, pid, m, [m]);
    AloneStep(Apply(s2, pid, m), pid, m, []);
    assert [m] + [m, m, m] == [m, m, m, m] && [m] + [m, m] == [m, m, m] && [m] + [m] == [m, m] && [m] + [] == [m];
  }
}
