/** Exclusivity in the file protocol: how often a name is claimed, held and ended. */
module FileProtocolClaims {
  import opened Messages
  import opened Disk
  import opened FileProtocol
  import opened FileProtocolSafety
  import SortedNames

  // ---------------------------------------------------------------- claims

  /** What a step reports about a name, and what it does to the file. */
  lemma EventKinds(s: State, p: Proc, move: Move)
    ensures var o := Decide(s.files, p, move);
      match o.event
      case Claimed(n) =>
        Path(PendingDir, n) in s.files && o.op == Rename(Path(PendingDir, n), Path(InProgressDir, n))
      case Returned(n) =>
        o.op.Rename? && o.op.from in s.files && o.op.from.name == n && o.op.to == Path(PendingDir, n)
      case Acknowledged(n) => o.op.Remove? && o.op.path in s.files && o.op.path.name == n
      case Settled(n) => o.op.Remove? && o.op.path in s.files && o.op.path.name == n
      case Cleared(n) => o.op.Remove? && o.op.path in s.files && o.op.path.name == n
      case Rehomed(n) =>
        o.op.Rename? && o.op.from in s.files && o.op.from.name == n && o.spare == Some(o.op.to.name)
      case _ => true
  {
  }

  /** An id becomes live exactly when a message of it is published, and ends exactly when a file of
      it is acknowledged or cleared. */
  lemma LiveExactlyWhen(s: State, pid: Pid, move: Move, id: nat)
    requires Bookkeeping(s) && Enabled(s, Decide(s.files, ProcOf(s, pid), move))
    ensures var o, s' := Decide(s.files, ProcOf(s, pid), move), Apply(s, pid, move);
            id in s'.live
            <==> || (o.event.Published? && o.event.id == id && o.op.Write? && o.op.contents.HasId(id))
                 || (id in s.live && !(o.op.Remove? && o.op.path in s.files && s.files[o.op.path].HasId(id)
                                       && o.event in {Acknowledged(o.op.path.name), Cleared(o.op.path.name)}))
  {
    hide Decide;
    var p := ProcOf(s, pid);
    EventKinds(s, p, move);
    PublishedKind(s, p, move);
    assert forall path | path in s.files :: s.files[path] == s.born[path.name].contents;
  }

  /** A file enters the pending directory by a write, under a new name, or by a recovery. */
  lemma EnteringPending(s: State, p: Proc, move: Move, n: Name)
    requires FilesOk(s) && ProcOk(s, p) && Enabled(s, Decide(s.files, p, move))
    requires Path(PendingDir, n) !in s.files
    requires Path(PendingDir, n) in Perform(s.files, Decide(s.files, p, move).op)
    ensures n !in s.born || Decide(s.files, p, move).event == Returned(n)
  {
  }

  ghost predicate UnbornUnclaimed(s: State) {
    forall n :: n !in s.born ==> s.events[Claimed(n)] == 0
  }

  /** Since the events in `base`, name `n` was claimed at most once more than it was returned by
      a recovery, and no more often than that while it is pending. */
  ghost predicate ClaimBalance(s: State, base: multiset<Event>, n: Name) {
    && base[Claimed(n)] <= s.events[Claimed(n)]
    && base[Returned(n)] <= s.events[Returned(n)]
    && s.events[Claimed(n)] - base[Claimed(n)] <= s.events[Returned(n)] - base[Returned(n)] + 1
    && (Path(PendingDir, n) in s.files ==>
          s.events[Claimed(n)] - base[Claimed(n)] <= s.events[Returned(n)] - base[Returned(n)])
  }

  lemma UnbornStep(s: State, pid: Pid, move: Move)
    requires Bookkeeping(s) && UnbornUnclaimed(s)
    ensures UnbornUnclaimed(Apply(s, pid, move))
  {
    hide Decide;
    BornStaysStep(s, pid, move);
    EventKinds(s, ProcOf(s, pid), move);
  }

  lemma BalanceStep(s: State, pid: Pid, move: Move, base: multiset<Event>, n: Name)
    requires Bookkeeping(s) && UnbornUnclaimed(s) && ClaimBalance(s, base, n)
    ensures ClaimBalance(Apply(s, pid, move), base, n)
  {
    hide Decide;
    var p := ProcOf(s, pid);
    var o := Decide(s.files, p, move);
    var s' := Apply(s, pid, move);
    EventKinds(s, p, move);
    assert ProcOk(s, p);
    if Enabled(s, o) && Path(PendingDir, n) !in s.files && Path(PendingDir, n) in s'.files {
      EnteringPending(s, p, move, n);
    }
  }

  ghost function Holders(s: State, n: Name): set<Pid> {
    set pid | pid in s.procs && s.procs[pid].Claims(n)
  }

  /** A process takes up a name only by claiming it. */
  lemma TakesUpByClaim(s: State, p: Proc, move: Move, n: Name)
    requires !p.Claims(n) && Decide(s.files, p, move).proc.Claims(n)
    ensures Decide(s.files, p, move).event == Claimed(n)
  {
  }

  lemma HoldersStep(s: State, pid: Pid, move: Move, n: Name)
    requires |Holders(s, n)| <= s.events[Claimed(n)]
    ensures |Holders(Apply(s, pid, move), n)| <= Apply(s, pid, move).events[Claimed(n)]
  {
    hide Decide;
    var p := ProcOf(s, pid);
    var o := Decide(s.files, p, move);
    var s' := Apply(s, pid, move);
    if Enabled(s, o) {
      if o.proc.Claims(n) && !p.Claims(n) {
        TakesUpByClaim(s, p, move, n);
        assert Holders(s', n) == Holders(s, n) + {pid};
      } else {
        assert Holders(s', n) <= Holders(s, n);
        SortedNames.SubsetSize(Holders(s', n), Holders(s, n));
      }
    }
  }

  lemma {:induction false} RunClaims(start: State, steps: seq<Step>, n: nat)
    requires Starts(start) && n <= |steps|
    ensures Safe(Run(start, steps, n)) && UnbornUnclaimed(Run(start, steps, n))
    ensures forall name :: |Holders(Run(start, steps, n), name)| <= Run(start, steps, n).events[Claimed(name)]
  {
    hide Apply;
    RunSafe(start, steps, n);
    if n > 0 {
      var s, last := Run(start, steps, n - 1), steps[n - 1];
      RunClaims(start, steps, n - 1);
      UnbornStep(s, last.pid, last.move);
      forall name
        ensures |Holders(Run(start, steps, n), name)| <= Run(start, steps, n).events[Claimed(name)]
      {
        HoldersStep(s, last.pid, last.move, name);
      }
    }
  }

  lemma ReachableClaims(s: State)
    requires Reachable(s)
    ensures Safe(s) && UnbornUnclaimed(s)
    ensures forall name :: |Holders(s, name)| <= s.events[Claimed(name)]
  {
    hide Safe;
    hide UnbornUnclaimed;
    var start :| Starts(start) && Leads(start, s);
    var steps: seq<Step>, n: nat :| n <= |steps| && s == Run(start, steps, n);
    RunClaims(start, steps, n);
  }

  /** What the claims of a name come to from any point of a run on. */
  lemma {:induction false} BalanceRun(s: State, steps: seq<Step>, n: nat, base: multiset<Event>, name: Name)
    requires Safe(s) && UnbornUnclaimed(s) && n <= |steps| && base == s.events
    ensures Safe(Run(s, steps, n)) && UnbornUnclaimed(Run(s, steps, n))
    ensures ClaimBalance(Run(s, steps, n), base, name)
  {
    hide Apply;
    if n > 0 {
      var before, last := Run(s, steps, n - 1), steps[n - 1];
      BalanceRun(s, steps, n - 1, base, name);
      SafeStep(before, last.pid, last.move);
      UnbornStep(before, last.pid, last.move);
      BalanceStep(before, last.pid, last.move, base, name);
    }
  }

  /** Between two points of a run at which no recovery returns a name in between, that name is
      claimed at most once. */
  lemma ClaimedOnceBetweenRecoveries(s: State, s': State, name: Name)
    requires Reachable(s) && Leads(s, s') && s'.events[Returned(name)] == s.events[Returned(name)]
    ensures s'.events[Claimed(name)] <= s.events[Claimed(name)] + 1
  {
    hide Run;
    ReachableClaims(s);
    var steps: seq<Step>, n: nat :| n <= |steps| && s' == Run(s, steps, n);
    BalanceRun(s, steps, n, s.events, name);
  }

  /** No more processes hold a name than recoveries returned it, and one. So two deliveries of
      one message exist only after a recovery ran beside a live delivery. */
  lemma HoldersBoundedByRecoveries(s: State, name: Name)
    requires Reachable(s)
    ensures |Holders(s, name)| <= s.events[Returned(name)] + 1
  {
    ReachableClaims(s);
    var start :| Starts(start) && Leads(start, s);
    var steps: seq<Step>, n: nat :| n <= |steps| && s == Run(start, steps, n);
    StartSafe(start);
    BalanceRun(start, steps, n, start.events, name);
  }

  // ---------------------------------------------------------------- one holder

  ghost predicate Claimant(s: State, n: Name) {
    exists pid | pid in s.procs :: s.procs[pid].Claims(n)
  }

  /** A name is claimed by one process, and is not pending meanwhile. */
  ghost predicate ClaimsApart(s: State) {
    && (forall a, b, n | a in s.procs && b in s.procs && s.procs[a].Claims(n) && s.procs[b].Claims(n) :: a == b)
    && (forall pid, n | pid in s.procs && s.procs[pid].Claims(n) :: Path(PendingDir, n) !in s.files)
  }

  /** A recovery returns no file beside its delivery. */
  ghost predicate Careful(s: State, pid: Pid, move: Move) {
    var e := Decide(s.files, ProcOf(s, pid), move).event;
    e.Returned? ==> !Claimant(s, e.name)
  }

  /** The first `n` steps are careful. */
  ghost predicate CarefulRun(start: State, steps: seq<Step>, n: nat)
    requires n <= |steps|
  {
    n == 0
    || (CarefulRun(start, steps, n - 1) && Careful(Run(start, steps, n - 1), steps[n - 1].pid, steps[n - 1].move))
  }

  lemma CarefulStep(s: State, pid: Pid, move: Move)
    requires Bookkeeping(s) && ClaimsApart(s) && Careful(s, pid, move)
    ensures ClaimsApart(Apply(s, pid, move))
  {
    hide Decide;
    var p := ProcOf(s, pid);
    var o := Decide(s.files, p, move);
    var s' := Apply(s, pid, move);
    if Enabled(s, o) {
      assert ProcOk(s, p);
      forall n | o.proc.Claims(n) && !p.Claims(n)
        ensures Path(PendingDir, n) in s.files && o.op == Rename(Path(PendingDir, n), Path(InProgressDir, n))
      {
        TakesUpByClaim(s, p, move, n);
        EventKinds(s, p, move);
      }
      forall q, n | q in s'.procs && s'.procs[q].Claims(n) ensures Path(PendingDir, n) !in s'.files {
        assert q in s.procs ==> ProcOk(s, s.procs[q]);
        if Path(PendingDir, n) !in s.files && Path(PendingDir, n) in s'.files {
          EnteringPending(s, p, move, n);
          assert false;
        }
      }
    }
  }

  /** A process that returns a file holds none. */
  lemma ReturnerHoldsNothing(s: State, p: Proc, move: Move)
    ensures Decide(s.files, p, move).event.Returned? ==>
              !p.HasDelivery() && !p.ClaimReading? && !p.ClaimDiscarding? && Decide(s.files, p, move).spare == None
  {
  }

  /** A recovery beside a delivery makes its file pending while the delivery goes on. */
  lemma CarelessStep(s: State, pid: Pid, move: Move)
    requires !Careful(s, pid, move)
    ensures !ClaimsApart(Apply(s, pid, move))
  {
    hide Decide;
    var p := ProcOf(s, pid);
    var o := Decide(s.files, p, move);
    var s' := Apply(s, pid, move);
    ReturnerHoldsNothing(s, p, move);
    EventKinds(s, p, move);
    var q :| q in s.procs && s.procs[q].Claims(o.event.name);
    assert q in s'.procs && s'.procs[q].Claims(o.event.name);
  }

  lemma {:induction false} RunApart(start: State, steps: seq<Step>, n: nat)
    requires n <= |steps| && Starts(start)
    ensures Bookkeeping(Run(start, steps, n))
    ensures CarefulRun(start, steps, n) ==> ClaimsApart(Run(start, steps, n))
  {
    hide Apply;
    hide Careful;
    RunSafe(start, steps, n);
    if n > 0 {
      var s, last := Run(start, steps, n - 1), steps[n - 1];
      RunApart(start, steps, n - 1);
      if CarefulRun(start, steps, n) {
        CarefulStep(s, last.pid, last.move);
      }
    }
  }

  /** The claims of every name stay apart for as long as no recovery returns a file beside its
      delivery, and no longer, whatever operations fail and whatever processes stop. */
  lemma {:induction false} ApartExactlyWhenCareful(start: State, steps: seq<Step>, n: nat)
    requires n <= |steps| && Starts(start)
    ensures CarefulRun(start, steps, n) <==> forall i | 0 <= i <= n :: ClaimsApart(Run(start, steps, i))
  {
    hide Apply;
    hide Careful;
    hide ClaimsApart;
    RunApart(start, steps, n);
    if n > 0 {
      var s, last := Run(start, steps, n - 1), steps[n - 1];
      ApartExactlyWhenCareful(start, steps, n - 1);
      if !Careful(s, last.pid, last.move) {
        CarelessStep(s, last.pid, last.move);
      }
    }
  }

  /** Some careful steps lead from one state to the other. */
  ghost predicate CarefullyLeads(start: State, s: State) {
    exists steps: seq<Step>, n: nat | n <= |steps| :: CarefulRun(start, steps, n) && s == Run(start, steps, n)
  }

  ghost predicate CarefullyReachable(s: State) {
    exists start :: Starts(start) && CarefullyLeads(start, s)
  }

  /** If no recovery ran beside a delivery of the file it returned, two processes that hold a name
      are one process, also after any number of recoveries of that name, failures and crashes. */
  lemma SoleHolder(s: State, name: Name, a: Pid, b: Pid)
    requires CarefullyReachable(s)
    requires a in Holders(s, name) && b in Holders(s, name)
    ensures a == b
  {
    var start :| Starts(start) && CarefullyLeads(start, s);
    var steps: seq<Step>, n: nat :| n <= |steps| && CarefulRun(start, steps, n) && s == Run(start, steps, n);
    RunApart(start, steps, n);
  }

  ghost predicate TwoHolders(s: State, name: Name) {
    exists a, b :: a != b && a in Holders(s, name) && b in Holders(s, name)
  }

  /** The state after process `q` has begun to claim the named file. */
  function OneClaim(s: State, q: Pid, name: Name): State {
    Apply(Apply(s, q, Begin(Claim([name]))), q, Go(0, []))
  }

  lemma ClaimMoves(s: State, q: Pid, name: Name)
    requires q !in s.procs
    ensures var p := if Path(PendingDir, name) in s.files then ClaimReading(name, []) else Proc.Claiming([]);
            OneClaim(s, q, name).procs == s.procs[q := p]
  {
    var s1 := Apply(s, q, Begin(Claim([name])));
    assert ProcOf(s1, q) == Proc.Claiming([name]) && s1.files == s.files;
    assert [name][1..] == [];
  }

  lemma ClaimIsCareful(s: State, q: Pid, name: Name)
    requires q !in s.procs
    ensures Careful(s, q, Begin(Claim([name])))
    ensures Careful(Apply(s, q, Begin(Claim([name]))), q, Go(0, []))
  {
  }

  /** Claims are apart if and only if one more claim cannot make two processes hold one name. */
  lemma SharedByOneClaim(s: State, q: Pid)
    requires Bookkeeping(s) && q !in s.procs
    ensures !ClaimsApart(s) <==> exists name :: TwoHolders(OneClaim(s, q, name), name)
  {
    hide Apply;
    if ClaimsApart(s) {
      forall name ensures !TwoHolders(OneClaim(s, q, name), name) {
        var s1 := Apply(s, q, Begin(Claim([name])));
        ClaimIsCareful(s, q, name);
        BookkeepingStep(s, q, Begin(Claim([name])));
        CarefulStep(s, q, Begin(Claim([name])));
        CarefulStep(s1, q, Go(0, []));
      }
    } else if a, b, n :| a in s.procs && b in s.procs && s.procs[a].Claims(n) && s.procs[b].Claims(n) && a != b {
      ClaimMoves(s, q, n);
      assert a in Holders(OneClaim(s, q, n), n) && b in Holders(OneClaim(s, q, n), n);
    } else {
      var pid, n :| pid in s.procs && s.procs[pid].Claims(n) && Path(PendingDir, n) in s.files;
      ClaimMoves(s, q, n);
      assert pid in Holders(OneClaim(s, q, n), n) && q in Holders(OneClaim(s, q, n), n);
    }
  }

  // ---------------------------------------------------------------- ends

  /** How often the file named `n` was reported acknowledged, settled, cleared or renamed. */
  ghost function Ends(s: State, n: Name): nat {
    s.events[Acknowledged(n)] + s.events[Settled(n)] + s.events[Cleared(n)] + s.events[Rehomed(n)]
  }

  ghost predicate EndsOnce(s: State, n: Name) {
    && Ends(s, n) <= 1
    && (Present(s.files, n) || n !in s.born ==> Ends(s, n) == 0)
  }

  lemma EndsStep(s: State, pid: Pid, move: Move, n: Name)
    requires Bookkeeping(s) && EndsOnce(s, n)
    ensures EndsOnce(Apply(s, pid, move), n)
  {
    hide Decide;
    var p := ProcOf(s, pid);
    var o := Decide(s.files, p, move);
    var s' := Apply(s, pid, move);
    EventKinds(s, p, move);
    if Enabled(s, o) {
      OutcomeNamesNew(s, p, move);
      BornStaysStep(s, pid, move);
      if Ends(s', n) != Ends(s, n) {
        EndingStep(s, pid, move, n);
      } else if Present(s'.files, n) && !Present(s.files, n) {
        Appears(s, o.op, n);
      }
    }
  }

  /** A name that appears on the disk is new. */
  lemma Appears(s: State, op: FsOp, n: Name)
    requires FilesOk(s) && NamesNew(s, op)
    requires !Present(s.files, n) && Present(Perform(s.files, op), n)
    ensures n !in s.born
  {
    if op.Rename? && op.from in s.files {
      PathPresent(s.files, op.from);
    }
  }

  /** A step that ends a file takes its name off the disk. */
  lemma EndingStep(s: State, pid: Pid, move: Move, n: Name)
    requires Bookkeeping(s) && Enabled(s, Decide(s.files, ProcOf(s, pid), move))
    requires Ends(Apply(s, pid, move), n) != Ends(s, n)
    ensures Present(s.files, n) && !Present(Apply(s, pid, move).files, n)
    ensures Ends(Apply(s, pid, move), n) == Ends(s, n) + 1
  {
    hide Decide;
    var p := ProcOf(s, pid);
    var o := Decide(s.files, p, move);
    EventKinds(s, p, move);
    var path := if o.op.Remove? then o.op.path else o.op.from;
    assert o.event in {Acknowledged(n), Settled(n), Cleared(n), Rehomed(n)};
    PathPresent(s.files, path);
  }

  lemma {:induction false} RunEnds(start: State, steps: seq<Step>, n: nat, name: Name)
    requires Starts(start) && n <= |steps|
    ensures EndsOnce(Run(start, steps, n), name)
  {
    hide Apply;
    if n > 0 {
      RunEnds(start, steps, n - 1, name);
      RunSafe(start, steps, n - 1);
      EndsStep(Run(start, steps, n - 1), steps[n - 1].pid, steps[n - 1].move, name);
    }
  }

  lemma ReachableEnds(s: State, name: Name)
    requires Reachable(s)
    ensures EndsOnce(s, name)
  {
    hide EndsOnce;
    var start :| Starts(start) && Leads(start, s);
    var steps: seq<Step>, n: nat :| n <= |steps| && s == Run(start, steps, n);
    RunEnds(start, steps, n, name);
  }

  /** At most one acknowledge or settle of a name reports success, and none if a clear removed
      it, whatever recoveries run at the same time. Only a settle that could not remove its old
      file can report success beside another. */
  lemma AtMostOneEnding(s: State, name: Name)
    requires Reachable(s)
    ensures s.events[Acknowledged(name)] + s.events[Settled(name)] + s.events[Cleared(name)] <= 1
  {
    ReachableEnds(s, name);
  }
}
