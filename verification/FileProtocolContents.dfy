/** What the file protocol stores: every file and every delivery carries the message that was
    published, and only its attempts may differ. */
module FileProtocolContents {
  import opened Messages
  import opened Disk
  import opened FileProtocol
  import opened FileProtocolSafety
  import opened FileProtocolListing

  /** The same message up to its attempts, or the same malformed element. */
  predicate SameMessage(x: Raw, y: Raw) {
    if x.Message? then y.Message? && y.envelope == x.envelope.(attempts := y.envelope.attempts) else y == x
  }

  // ---------------------------------------------------------------- one step

  /** The delivery of `q` is the one that `p` had, or the message of the file that `p` has claimed.
      Only the start of a settle sets the attempts, and the claim counts one on top of the file. */
  predicate DeliveryFrom(files: Files, p: Proc, move: Move, q: Proc)
    requires q.HasDelivery()
  {
    if p.HasDelivery() then
      && q.name == p.name
      && q.envelope == if move.Settle? && p.Holding? then p.envelope.(attempts := move.attempts) else p.envelope
    else
      p.ClaimReading? && move.Go? && q.name == p.name && Path(InProgressDir, p.name) in files
      && files[Path(InProgressDir, p.name)].Message?
      && q.envelope == files[Path(InProgressDir, p.name)].envelope.CountAttempt()
  }

  /** A process has a delivery after a step only if it had it before, with the same name and
      envelope, or read it in this step. */
  lemma DeliveryKept(s: State, pid: Pid, move: Move)
    requires Enabled(s, Decide(s.files, ProcOf(s, pid), move))
    ensures var q := ProcOf(Apply(s, pid, move), pid);
            q.HasDelivery() ==> DeliveryFrom(s.files, ProcOf(s, pid), move, q)
  {
    hide DeliveryFrom;
    hide Apply;
    ProcAfter(s, pid, move, pid);
    DecidesDelivery(s.files, ProcOf(s, pid), move);
  }

  lemma DecidesDelivery(files: Files, p: Proc, move: Move)
    ensures var q := Decide(files, p, move).proc;
            q.HasDelivery() ==> DeliveryFrom(files, p, move, q)
  {
  }

  /** A failed operation changes no file. It ends every call but a settle, except that a claim goes
      on after a file that it could not read or discard. */
  lemma FailureEnds(s: State, pid: Pid)
    ensures var p, s' := ProcOf(s, pid), Apply(s, pid, Fail);
            && s'.files == s.files
            && (!p.HasDelivery() ==>
                  ProcOf(s', pid) == if p.ClaimReading? then ClaimDiscarding(p.name, p.listing)
                                     else if p.ClaimDiscarding? then Proc.Claiming(p.listing)
                                     else Idle)
  {
  }

  // ---------------------------------------------------------------- whole runs

  /** For each name, the element that was published or there at the start, from which its file was
      renamed and copied. */
  type Roots = map<Name, Raw>

  function Root(roots: Roots, n: Name): Raw {
    if n in roots then roots[n] else Malformed(0)
  }

  function NextRoots(roots: Roots, s: State, p: Proc, op: FsOp): Roots {
    match op
    case Write(path, contents) =>
      roots[path.name := if p.SettleWriting? then Root(roots, p.name) else contents]
    case Rename(from, to) => if from in s.files then roots[to.name := Root(roots, from.name)] else roots
    case _ => roots
  }

  function RootsAfter(start: State, steps: seq<Step>, n: nat): Roots
    requires n <= |steps|
  {
    if n == 0 then map name | name in start.born :: start.born[name].contents
    else
      var roots, s, last := RootsAfter(start, steps, n - 1), Run(start, steps, n - 1), steps[n - 1];
      var o := Decide(s.files, ProcOf(s, last.pid), last.move);
      if o.spare.Some? && o.spare.value in s.issued then roots
      else NextRoots(roots, s, ProcOf(s, last.pid), o.op)
  }

  ghost predicate RootsOk(s: State, roots: Roots) {
    forall n | n in s.born :: n in roots && SameMessage(roots[n], s.born[n].contents)
  }

  ghost predicate DeliveryOk(s: State, roots: Roots, p: Proc) {
    p.HasDelivery() ==> p.name in s.born && SameMessage(Root(roots, p.name), Message(p.envelope))
  }

  ghost predicate Kept(s: State, roots: Roots) {
    RootsOk(s, roots) && forall pid :: DeliveryOk(s, roots, ProcOf(s, pid))
  }

  /** What a write writes. */
  lemma WritesItsMessage(files: Files, p: Proc, move: Move)
    ensures var o := Decide(files, p, move);
            o.op.Write? ==> (p.SettleWriting? || p.Publishing?) && o.op.contents == Message(p.envelope)
  {
  }

  lemma RootsStep(s: State, roots: Roots, pid: Pid, move: Move)
    requires Bookkeeping(s) && RootsOk(s, roots) && DeliveryOk(s, roots, ProcOf(s, pid))
    requires Enabled(s, Decide(s.files, ProcOf(s, pid), move))
    ensures var roots' := NextRoots(roots, s, ProcOf(s, pid), Decide(s.files, ProcOf(s, pid), move).op);
            && RootsOk(Apply(s, pid, move), roots')
            && (forall n | n in s.born :: Root(roots', n) == Root(roots, n))
  {
    hide Decide;
    var p := ProcOf(s, pid);
    assert ProcOk(s, p);
    OutcomeNamesNew(s, p, move);
    WritesItsMessage(s.files, p, move);
  }

  lemma DeliveriesStep(s: State, roots: Roots, pid: Pid, move: Move, roots': Roots, q: Pid)
    requires Bookkeeping(s) && RootsOk(s, roots) && DeliveryOk(s, roots, ProcOf(s, q))
    requires forall n | n in s.born :: Root(roots', n) == Root(roots, n)
    ensures DeliveryOk(Apply(s, pid, move), roots', ProcOf(Apply(s, pid, move), q))
  {
    hide Decide;
    hide Apply;
    BornStaysStep(s, pid, move);
    ProcAfter(s, pid, move, q);
    assert ProcOk(s, ProcOf(s, q));
    if q == pid && Enabled(s, Decide(s.files, ProcOf(s, pid), move)) {
      DeliveryKept(s, pid, move);
    }
  }

  lemma {:induction false} RunKept(start: State, steps: seq<Step>, n: nat)
    requires n <= |steps| && Starts(start)
    ensures Kept(Run(start, steps, n), RootsAfter(start, steps, n))
  {
    hide Apply;
    hide Decide;
    hide RootsOk;
    hide DeliveryOk;
    if n == 0 {
      StartKept(start);
    } else {
      var s, last := Run(start, steps, n - 1), steps[n - 1];
      var roots, roots' := RootsAfter(start, steps, n - 1), RootsAfter(start, steps, n);
      RunKept(start, steps, n - 1);
      RunSafe(start, steps, n - 1);
      assert Bookkeeping(s);
      KeptStep(s, roots, last.pid, last.move, roots');
    }
  }

  lemma StartKept(start: State)
    requires Starts(start)
    ensures Kept(start, map name | name in start.born :: start.born[name].contents)
  {
  }

  lemma KeptStep(s: State, roots: Roots, pid: Pid, move: Move, roots': Roots)
    requires Bookkeeping(s) && Kept(s, roots)
    requires var o := Decide(s.files, ProcOf(s, pid), move);
             roots' == if o.spare.Some? && o.spare.value in s.issued then roots
                       else NextRoots(roots, s, ProcOf(s, pid), o.op)
    ensures Kept(Apply(s, pid, move), roots')
  {
    hide Decide;
    hide RootsOk;
    hide DeliveryOk;
    hide NextRoots;
    if Enabled(s, Decide(s.files, ProcOf(s, pid), move)) {
      RootsStep(s, roots, pid, move);
      forall q ensures DeliveryOk(Apply(s, pid, move), roots', ProcOf(Apply(s, pid, move), q)) {
        DeliveriesStep(s, roots, pid, move, roots', q);
      }
    }
  }

  /** Whatever operations fail and whatever processes stop, every file and every delivery carries the
      message from which its line of renames and copies began. Its command, its id and its retries
      never change. */
  lemma MessageIsKept(start: State, steps: seq<Step>, n: nat)
    requires n <= |steps| && Starts(start)
    ensures var s, roots := Run(start, steps, n), RootsAfter(start, steps, n);
            && (forall path | path in s.files :: SameMessage(Root(roots, path.name), s.files[path]))
            && (forall pid | ProcOf(s, pid).HasDelivery() ::
                  SameMessage(Root(roots, ProcOf(s, pid).name), Message(ProcOf(s, pid).envelope)))
  {
    RunKept(start, steps, n);
    RunSafe(start, steps, n);
  }
}
