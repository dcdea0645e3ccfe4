/** What a settle that reports its message lost leaves behind. A clear removes the file of a
    delivery, but not the copies that failed settles of the delivery wrote. */
module FileProtocolStranded {
  import opened Messages
  import opened Disk
  import opened FileProtocol
  import opened FileProtocolSafety
  import opened FileProtocolClaims
  import opened FileProtocolClear

  /** A settle fails with its copy written: at the sync after the write, or at the undo. */
  predicate Strands(p: Proc, move: Move) {
    (p.SettleSyncing? || p.SettleUndoing?) && move.Fail?
  }

  /** With its old file gone, a settle gives its copy up and leaves it exactly when its step fails
      or the process stops. */
  lemma CopyDecides(files: Files, p: Proc, move: Move)
    requires p.HasCopy() && Path(SettlingDir, p.name) !in files && Path(p.target, p.copy) in files
    ensures var o := Decide(files, p, move);
            && o.spare == None
            && (!o.proc.HasCopy() && Path(p.target, p.copy) in Perform(files, o.op) <==> move.Fail? || move.Crash?)
  {
  }

  /** The step of a settle with a copy of a cleared message gives the copy up, and leaves it where
      it is, exactly when the step fails or the process stops. */
  lemma CopySurvives(s: State, pid: Pid, move: Move)
    requires Reachable(s) && ProcOf(s, pid).HasCopy() && s.events[Cleared(ProcOf(s, pid).name)] > 0
    requires !TakenUp(s, ProcOf(s, pid).copy)
    ensures var p, s' := ProcOf(s, pid), Apply(s, pid, move);
            !ProcOf(s', pid).HasCopy() && Path(p.target, p.copy) in s'.files <==> move.Fail? || move.Crash?
  {
    hide Decide;
    hide Reachable;
    var p := ProcOf(s, pid);
    ReachableCopies(s);
    ReachableEnds(s, p.name);
    assert InPlace(s, Path(p.target, p.copy));
    CopyDecides(s.files, p, move);
  }

  // ---------------------------------------------------------------- one delivery over a run

  /** The process goes on with the delivery of this name for `n` steps. */
  ghost predicate Delivers(s: State, steps: seq<Step>, n: nat, pid: Pid, name: Name)
    requires n <= |steps|
  {
    var p := ProcOf(Run(s, steps, n), pid);
    p.HasDelivery() && p.name == name && (n > 0 ==> Delivers(s, steps, n - 1, pid, name))
  }

  /** The copies that the process has had in `n` steps. */
  function Copies(s: State, steps: seq<Step>, n: nat, pid: Pid): set<Name>
    requires n <= |steps|
  {
    var p := ProcOf(Run(s, steps, n), pid);
    (if p.HasCopy() then {p.copy} else {}) + if n == 0 then {} else Copies(s, steps, n - 1, pid)
  }

  /** The copies of the settles of the process that failed with their copy written. */
  function Stranded(s: State, steps: seq<Step>, n: nat, pid: Pid): set<Name>
    requires n <= |steps|
  {
    if n == 0 then {}
    else
      var p, last := ProcOf(Run(s, steps, n - 1), pid), steps[n - 1];
      Stranded(s, steps, n - 1, pid) + if last.pid == pid && Strands(p, last.move) then {p.copy} else {}
  }

  /** A copy that no settle counts on or takes back any more is where it was written, until another
      operation takes it up. */
  ghost predicate Left(s: State, c: Name) {
    && c in s.born
    && (s.born[c].dir == PendingDir || s.born[c].dir == FailedDir)
    && InPlace(s, Path(s.born[c].dir, c))
    && forall q | q in s.procs && s.procs[q].HasCopy() :: s.procs[q].copy != c
  }

  /** A settle that does not end gives its copy up only by such a failure. */
  lemma KeepsCopy(s: State, p: Proc, move: Move)
    requires p.HasCopy() && Decide(s.files, p, move).proc.HasDelivery()
    ensures var q := Decide(s.files, p, move).proc;
            if Strands(p, move) then !q.HasCopy() else q.HasCopy() && q.copy == p.copy
  {
  }

  lemma StrandsQuietly(s: State, p: Proc, move: Move)
    requires Strands(p, move)
    ensures var o := Decide(s.files, p, move); o.op == NoOp && o.spare == None && !o.proc.HasCopy()
  {
  }

  lemma LeftStays(s: State, pid: Pid, move: Move, c: Name)
    requires Bookkeeping(s) && Left(s, c)
    ensures Left(Apply(s, pid, move), c)
  {
    hide Decide;
    var p := ProcOf(s, pid);
    var o := Decide(s.files, p, move);
    if Enabled(s, o) {
      BornStaysStep(s, pid, move);
      NewWriter(s, p, move);
      StaysInPlace(s, pid, move, Path(s.born[c].dir, c));
    }
  }

  lemma StrandedIsLeft(s: State, pid: Pid, move: Move)
    requires Bookkeeping(s) && CopiesInPlace(s) && Strands(ProcOf(s, pid), move)
    ensures Left(Apply(s, pid, move), ProcOf(s, pid).copy)
  {
    hide Decide;
    var p := ProcOf(s, pid);
    StrandsQuietly(s, p, move);
    assert ProcOk(s, p) && InPlace(s, Path(p.target, p.copy));
  }

  ghost predicate Tracked(s: State, steps: seq<Step>, n: nat, pid: Pid)
    requires n <= |steps|
  {
    var s', p := Run(s, steps, n), ProcOf(Run(s, steps, n), pid);
    && Safe(s') && CopiesInPlace(s')
    && (forall c | c in Stranded(s, steps, n, pid) :: Left(s', c))
    && Copies(s, steps, n, pid) == Stranded(s, steps, n, pid) + if p.HasCopy() then {p.copy} else {}
  }

  lemma TrackedStep(s: State, steps: seq<Step>, n: nat, pid: Pid, name: Name)
    requires n < |steps| && Delivers(s, steps, n + 1, pid, name) && Tracked(s, steps, n, pid)
    ensures Tracked(s, steps, n + 1, pid)
  {
    hide Decide;
    hide Safe;
    hide Left;
    hide CopiesInPlace;
    hide Apply;
    var s', last := Run(s, steps, n), steps[n];
    var s'' := Apply(s', last.pid, last.move);
    assert Run(s, steps, n + 1) == s'';
    SafeStep(s', last.pid, last.move);
    TrackedCopies(s', last.pid, last.move, pid);
    forall c | c in Stranded(s, steps, n, pid) ensures Left(s'', c) {
      StepLeft(s', last.pid, last.move, c);
    }
    if last.pid == pid && Strands(ProcOf(s', pid), last.move) {
      StepStrands(s', pid, last.move);
    }
  }

  lemma StepLeft(s: State, pid: Pid, move: Move, c: Name)
    requires Safe(s) && Left(s, c)
    ensures Left(Apply(s, pid, move), c)
  {
    LeftStays(s, pid, move, c);
  }

  lemma StepStrands(s: State, pid: Pid, move: Move)
    requires Safe(s) && CopiesInPlace(s) && Strands(ProcOf(s, pid), move)
    ensures Left(Apply(s, pid, move), ProcOf(s, pid).copy)
  {
    StrandedIsLeft(s, pid, move);
  }

  /** The copy in hand after a step of any process is the one before it, unless this step strands
      it, or a first one. */
  lemma TrackedCopies(s: State, mover: Pid, move: Move, pid: Pid)
    requires Safe(s) && CopiesInPlace(s)
    ensures CopiesInPlace(Apply(s, mover, move))
    ensures var p, q := ProcOf(s, pid), ProcOf(Apply(s, mover, move), pid);
            p.HasCopy() && q.HasDelivery() ==>
              if mover == pid && Strands(p, move) then !q.HasCopy() else q.HasCopy() && q.copy == p.copy
  {
    hide Decide;
    CopiesStep(s, mover, move);
    var p := ProcOf(s, mover);
    if Strands(p, move) {
      StrandsQuietly(s, p, move);
    } else if mover != pid {
      assert ProcOf(Apply(s, mover, move), pid) == ProcOf(s, pid);
    } else if p.HasCopy() && Decide(s.files, p, move).proc.HasDelivery() {
      KeepsCopy(s, p, move);
    }
  }

  lemma {:induction false} RunTracked(s: State, steps: seq<Step>, n: nat, pid: Pid, name: Name)
    requires Reachable(s) && ProcOf(s, pid).Holding? && n <= |steps| && Delivers(s, steps, n, pid, name)
    ensures Tracked(s, steps, n, pid)
  {
    hide Apply;
    if n == 0 {
      ReachableSafe(s);
      ReachableCopies(s);
    } else {
      RunTracked(s, steps, n - 1, pid, name);
      TrackedStep(s, steps, n - 1, pid, name);
    }
  }

  // ---------------------------------------------------------------- what a lost delivery leaves

  /** The message's file is in pending or failed, untouched by any other operation. */
  ghost predicate Stays(s: State, c: Name) {
    Present(s.files, c) && !TakenUp(s, c)
  }

  predicate ReportsLost(e: Event) {
    e.LostBeforeCopy? || e.LostAfterCopy?
  }

  /** A delivery that reports its message lost has no copy in hand, or takes it back. */
  lemma LostDecides(s: State, p: Proc, move: Move)
    requires p.HasDelivery() && ReportsLost(Decide(s.files, p, move).event)
    ensures var o := Decide(s.files, p, move);
            && o.spare == None && o.proc.Idle?
            && (if p.HasCopy() then o.op == Remove(Path(p.target, p.copy)) else o.op == NoOp)
            && o.event != Claimed(p.name) && !o.event.Rehomed? && !o.event.Cleared?
  {
  }

  /** The step that reports the loss leaves no copy that was in hand. */
  lemma InHandGoes(s: State, pid: Pid, move: Move)
    requires Safe(s) && CopiesInPlace(s) && ProcOf(s, pid).HasCopy()
    requires ReportsLost(Decide(s.files, ProcOf(s, pid), move).event)
    ensures !Stays(Apply(s, pid, move), ProcOf(s, pid).copy)
  {
    hide Decide;
    var p := ProcOf(s, pid);
    LostDecides(s, p, move);
    assert InPlace(s, Path(p.target, p.copy));
  }

  lemma LeftPresent(s: State, c: Name)
    requires Left(s, c)
    ensures Stays(s, c) <==> !TakenUp(s, c)
  {
    if Path(s.born[c].dir, c) in s.files {
      PathPresent(s.files, Path(s.born[c].dir, c));
    }
  }

  /** When a delivery ends with its message reported lost, whatever else went on, its copies that
      are still there, and that no other operation took up, are exactly those of its settles that
      failed with their copy written and whose copy no other operation took up. */
  lemma LostLeavesStranded(s: State, steps: seq<Step>, n: nat, pid: Pid, name: Name, c: Name)
    requires Reachable(s) && ProcOf(s, pid).Holding? && n < |steps| && Delivers(s, steps, n, pid, name)
    requires steps[n].pid == pid
    requires ReportsLost(Decide(Run(s, steps, n).files, ProcOf(Run(s, steps, n), pid), steps[n].move).event)
    ensures var end := Run(s, steps, n + 1);
            c in Copies(s, steps, n, pid) && Stays(end, c) <==> c in Stranded(s, steps, n, pid) && !TakenUp(end, c)
  {
    hide Decide;
    hide Apply;
    hide Safe;
    hide Left;
    hide CopiesInPlace;
    hide Stays;
    var s', move := Run(s, steps, n), steps[n].move;
    RunTracked(s, steps, n, pid, name);
    assert Run(s, steps, n + 1) == Apply(s', pid, move);
    if c in Stranded(s, steps, n, pid) {
      StepLeft(s', pid, move, c);
      LeftPresent(Apply(s', pid, move), c);
    } else if c in Copies(s, steps, n, pid) {
      InHandGoes(s', pid, move);
    }
  }

  // ---------------------------------------------------------------- a cleared message that returns

  const GO := Go(0, [])

  /** One pending message and no caller. */
  function OnePending(e: Envelope): State {
    State(map[Path(PendingDir, 0) := Message(e)], map[], {0}, 1, map[0 := Birth(Message(e), PendingDir, 0)], {e.id},
          multiset{})
  }

  /** Process 1 settles its delivery by a retry. Process 2 clears the in-progress stage between the
      write and the directory sync, which then fails. The repeated retry reports the loss. */
  function StepAt(e: Envelope, k: nat): Step {
    var retry := Settle(e.CountAttempt().attempts, PendingDir);
    if k == 0 then Step(1, Begin(Claim([0])))
    else if k == 3 || k == 10 then Step(1, retry)
    else if k == 4 then Step(1, Go(1, []))
    else if k == 5 then Step(2, Begin(Clear(InProgress, [])))
    else if k == 6 then Step(2, Go(0, [0]))
    else if k == 7 then Step(2, GO)
    else if k == 8 then Step(1, Fail)
    else Step(1, GO)
  }

  function ClearedSteps(e: Envelope): seq<Step> {
    seq(12, k requires 0 <= k => StepAt(e, k))
  }

  /** What a state shows of the run: the files, the processes, the live ids and the names in use.
      No operation took up the file named 1. */
  datatype View = View(files: Files, procs: map<Pid, Proc>, live: set<nat>, issued: set<Name>) {
    function ProcOf(pid: Pid): Proc {
      if pid in procs then procs[pid] else Idle
    }

    function After(pid: Pid, o: Outcome, live: set<nat>): View {
      View(Perform(files, o.op), procs[pid := o.proc], live, if o.spare.Some? then issued + {o.spare.value} else issued)
    }
  }

  ghost predicate Shows(s: State, v: View) {
    && s.files == v.files && s.procs == v.procs && s.live == v.live && s.issued == v.issued
    && !TakenUp(s, 1)
  }

  /** What process 1 does next before step `k`. */
  function HolderAt(e: Envelope, k: nat): Proc {
    var c := e.CountAttempt();
    if k == 0 || k >= 12 then Idle
    else if k == 1 then Claiming([0])
    else if k == 2 then ClaimReading(0, [])
    else if k == 3 || k == 10 then Holding(0, c)
    else if k == 4 then SettleWriting(0, c, PendingDir)
    else if k <= 8 then SettleSyncing(0, c, PendingDir, 1)
    else if k == 9 then SettleRestoring(0, c)
    else SettleChecking(0, c, PendingDir)
  }

  function FilesAt(e: Envelope, k: nat): Files {
    var x, copy := Message(e), Path(PendingDir, 1);
    if k <= 1 then map[Path(PendingDir, 0) := x]
    else if k <= 3 then map[Path(InProgressDir, 0) := x]
    else if k == 4 then map[Path(SettlingDir, 0) := x]
    else if k <= 7 then map[Path(SettlingDir, 0) := x, copy := Message(e.CountAttempt())]
    else map[copy := Message(e.CountAttempt())]
  }

  function ProcsAt(e: Envelope, k: nat): map<Pid, Proc> {
    if k == 0 then map[]
    else if k <= 5 then map[1 := HolderAt(e, k)]
    else if k == 6 then map[1 := HolderAt(e, k), 2 := Clearing(InProgress, [])]
    else map[1 := HolderAt(e, k), 2 := ClearingSettles(if k == 7 then [0] else [])]
  }

  function ViewAt(e: Envelope, k: nat): View {
    View(FilesAt(e, k), ProcsAt(e, k), if k <= 7 then {e.id} else {}, if k <= 4 then {0} else {0, 1})
  }

  /** One step from one view to the next. What a clear ends is left open. */
  ghost predicate Next(v: View, step: Step, v': View) {
    var o := Decide(v.files, v.ProcOf(step.pid), step.move);
    && (o.spare.Some? ==> o.spare.value !in v.issued)
    && o.event !in {Claimed(1), Rehomed(1), Cleared(1)} && !o.event.Published? && !o.event.Acknowledged?
    && v' == v.After(step.pid, o, v'.live)
    && (!o.event.Cleared? ==> v'.live == v.live)
  }

  predicate Clears(v: View, step: Step) {
    Decide(v.files, v.ProcOf(step.pid), step.move).event.Cleared?
  }

  lemma NextToWrite(e: Envelope, k: nat)
    requires k < 5
    ensures Next(ViewAt(e, k), StepAt(e, k), ViewAt(e, k + 1)) && !Clears(ViewAt(e, k), StepAt(e, k))
  {
    assert [0][1..] == [];
  }

  lemma NextToClear(e: Envelope, k: nat)
    requires 5 <= k < 8
    ensures Next(ViewAt(e, k), StepAt(e, k), ViewAt(e, k + 1)) && (Clears(ViewAt(e, k), StepAt(e, k)) ==> k == 7)
  {
    assert [0][1..] == [];
  }

  lemma NextToLost(e: Envelope, k: nat)
    requires 8 <= k < 12
    ensures Next(ViewAt(e, k), StepAt(e, k), ViewAt(e, k + 1)) && !Clears(ViewAt(e, k), StepAt(e, k))
  {
  }

  /** The clear ends the message. */
  lemma ClearEnds(e: Envelope, s: State)
    requires FilesOk(s) && Shows(s, ViewAt(e, 7))
    ensures Apply(s, 2, GO).live == {}
  {
    assert s.files[Path(SettlingDir, 0)] == Message(e);
    assert s.born[0].contents == Message(e);
    assert Decide(s.files, ProcOf(s, 2), GO).event == Cleared(0);
  }

  lemma {:induction false} RunShows(e: Envelope, k: nat)
    requires k <= 12
    ensures Shows(Run(OnePending(e), ClearedSteps(e), k), ViewAt(e, k))
  {
    hide Decide;
    hide Apply;
    hide Next;
    hide Clears;
    if k > 0 {
      var s, step := Run(OnePending(e), ClearedSteps(e), k - 1), StepAt(e, k - 1);
      RunShows(e, k - 1);
      if k <= 5 {
        NextToWrite(e, k - 1);
      } else if k <= 8 {
        NextToClear(e, k - 1);
      } else {
        NextToLost(e, k - 1);
      }
      if k == 8 {
        RunSafe(OnePending(e), ClearedSteps(e), 7);
        ClearEnds(e, s);
      }
      ShowsNext(s, ViewAt(e, k - 1), step, ViewAt(e, k));
    }
  }

  lemma ShowsNext(s: State, v: View, step: Step, v': View)
    requires Shows(s, v) && Next(v, step, v')
    requires Clears(v, step) ==> Apply(s, step.pid, step.move).live == v'.live
    ensures Shows(Apply(s, step.pid, step.move), v')
  {
    hide Decide;
  }

  /** After this run the holder has reported its message lost and the message is no longer live,
      but its copy is pending, and no other operation touched it. */
  lemma ClearedMessageReturns(e: Envelope)
    ensures var s := Run(OnePending(e), ClearedSteps(e), 12);
            && Starts(OnePending(e)) && e.id !in s.live
            && ProcOf(s, 1) == Idle && s.events[LostBeforeCopy(0)] > 0
            && s.files == map[Path(PendingDir, 1) := Message(e.CountAttempt())] && !TakenUp(s, 1)
  {
    hide Run;
    hide Apply;
    RunShows(e, 11);
    RunShows(e, 12);
    LostAtLast(e, Run(OnePending(e), ClearedSteps(e), 11));
    LastStep(e);
  }

  lemma LastStep(e: Envelope)
    ensures Run(OnePending(e), ClearedSteps(e), 12) == Apply(Run(OnePending(e), ClearedSteps(e), 11), 1, GO)
  {
    hide Apply;
  }

  lemma LostAtLast(e: Envelope, s: State)
    requires Shows(s, ViewAt(e, 11))
    ensures Apply(s, 1, GO).events[LostBeforeCopy(0)] > 0
  {
    assert Decide(s.files, ProcOf(s, 1), GO).event == LostBeforeCopy(0);
  }
}
