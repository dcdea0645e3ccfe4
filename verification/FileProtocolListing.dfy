/** A call that goes through a directory listing, in the file protocol: it tries every name of its
    listing, whatever other processes do to the files meanwhile. */
module FileProtocolListing {
  import opened Messages
  import opened Disk
  import opened FileProtocol
  import opened FileProtocolSafety

  /** The process is inside a listing. */
  predicate Lists(p: Proc) {
    p.Claiming? || p.ClaimReading? || p.ClaimDiscarding? || p.Recovering? || p.RecoveringSettles?
    || p.Clearing? || p.ClearingSettles? || p.Republishing?
  }

  /** It tries the next name. */
  predicate Tries(p: Proc) {
    Lists(p) && !p.ClaimReading? && !p.ClaimDiscarding? && p.listing != []
  }

  /** Where the files of the listing are. */
  function Source(p: Proc): Dir {
    if p.Claiming? then PendingDir
    else if p.Clearing? then StageDir(p.stage)
    else if p.RecoveringSettles? || p.ClearingSettles? then SettlingDir
    else if p.Republishing? then FailedDir
    else InProgressDir
  }

  /** Where they go. A clear removes them. */
  function Landing(p: Proc): Option<Dir> {
    if p.Claiming? then Some(InProgressDir)
    else if p.Clearing? || p.ClearingSettles? then None
    else Some(PendingDir)
  }

  /** What became of a name that was tried. A file that a claim took is held, or was gone when it
      was read or discarded, or was discarded. */
  datatype Fate = Absent | Took | Held | Gone | Discarded | NotDiscarded | Skipped

  datatype Try = Try(name: Name, fate: Fate)

  function Names(tries: seq<Try>): seq<Name> {
    if tries == [] then [] else Names(tries[..|tries| - 1]) + [tries[|tries| - 1].name]
  }

  /** The file has gone from one path, to a new path of a directory if one is given. */
  ghost predicate Left(files: Files, files': Files, from: Path, to: Option<Dir>) {
    && from in files && from !in files'
    && (to.Some? ==>
          exists path: Path | path in files' && path !in files :: path.dir == to.value && files'[path] == files[from])
  }

  ghost function FateOf(files: Files, files': Files, from: Path, to: Option<Dir>, moved: Fate, absent: Fate): Fate {
    if from !in files then absent else if Left(files, files', from, to) then moved else Skipped
  }

  function WithLast(tries: seq<Try>, fate: Fate): seq<Try> {
    if tries == [] then [] else tries[..|tries| - 1] + [Try(tries[|tries| - 1].name, fate)]
  }

  /** The names tried in the current listing, with what became of them, after a step of the process. */
  ghost function NextTries(tries: seq<Try>, p: Proc, move: Move, files: Files, files': Files): seq<Try> {
    if move.Begin? && p.Idle? then []
    else if move.Go? && (p.Recovering? || p.Clearing?) && p.listing == [] then []
    else if move.Go? && Tries(p) then
      var from := Path(Source(p), p.listing[0]);
      tries + [Try(p.listing[0], FateOf(files, files', from, Landing(p), Took, Absent))]
    else if move.Go? && p.ClaimReading? then
      var path := Path(InProgressDir, p.name);
      WithLast(tries, if path !in files then Gone else if files[path].Message? then Held else Took)
    else if move.Go? && p.ClaimDiscarding? then
      WithLast(tries, FateOf(files, files', Path(InProgressDir, p.name), Some(FailedDir), Discarded, Gone))
    else if move.Fail? && p.ClaimDiscarding? then WithLast(tries, NotDiscarded)
    else tries
  }

  /** The listing that the process is in. */
  function NextListing(listing: seq<Name>, p: Proc, move: Move): seq<Name> {
    if move.Begin? && p.Idle? then
      match move.task
      case Publish(_, _) => []
      case Claim(names) => names
      case Recover(names) => names
      case Clear(_, names) => names
      case Republish(names) => names
    else if move.Go? && (p.Recovering? || p.Clearing?) && p.listing == [] then move.listing
    else listing
  }

  ghost function TriesAfter(start: State, steps: seq<Step>, n: nat, pid: Pid): seq<Try>
    requires n <= |steps|
  {
    if n == 0 then []
    else
      var tries, s, last := TriesAfter(start, steps, n - 1, pid), Run(start, steps, n - 1), steps[n - 1];
      if last.pid != pid || !Enabled(s, Decide(s.files, ProcOf(s, pid), last.move)) then tries
      else NextTries(tries, ProcOf(s, pid), last.move, s.files, Apply(s, pid, last.move).files)
  }

  ghost function ListingAfter(start: State, steps: seq<Step>, n: nat, pid: Pid): seq<Name>
    requires n <= |steps|
  {
    if n == 0 then []
    else
      var listing, s, last := ListingAfter(start, steps, n - 1, pid), Run(start, steps, n - 1), steps[n - 1];
      if last.pid != pid || !Enabled(s, Decide(s.files, ProcOf(s, pid), last.move)) then listing
      else NextListing(listing, ProcOf(s, pid), last.move)
  }

  // ---------------------------------------------------------------- every name is tried

  /** A name that a claim has done with, and one that another call has done with. */
  predicate Settled(f: Fate, claiming: bool) {
    if claiming then f == Absent || f == Gone || f == Discarded || f == NotDiscarded else f == Absent || f == Took
  }

  predicate AllSettled(tries: seq<Try>, claiming: bool) {
    forall i | 0 <= i < |tries| :: Settled(tries[i].fate, claiming)
  }

  /** The names tried and the names still to be tried are the listing, in order. */
  predicate Covered(p: Proc, tries: seq<Try>, listing: seq<Name>) {
    Lists(p) ==>
      && Names(tries) + p.listing == listing
      && if p.ClaimReading? || p.ClaimDiscarding? then
           && tries != [] && tries[|tries| - 1] == Try(p.name, Took)
           && AllSettled(tries[..|tries| - 1], true)
         else AllSettled(tries, p.Claiming?)
  }

  /** A step leaves the listing by its end, or with the message that a claim took. */
  ghost predicate Progress(p: Proc, q: Proc, tries: seq<Try>, tries': seq<Try>, listing: seq<Name>) {
    || SameListing(p, q)
    || (Lists(p) && p.listing == [] && Names(tries) == listing && AllSettled(tries, p.Claiming?))
    || (q.Holding? && tries' != [] && tries'[|tries'| - 1] == Try(q.name, Held))
  }

  predicate Claiming(p: Proc) {
    p.Claiming? || p.ClaimReading? || p.ClaimDiscarding?
  }

  /** Both are in one listing of one call. */
  predicate SameListing(p: Proc, q: Proc) {
    || (Claiming(p) && Claiming(q))
    || (p.Recovering? && q.Recovering?) || (p.RecoveringSettles? && q.RecoveringSettles?)
    || (p.Clearing? && q.Clearing? && p.stage == q.stage) || (p.ClearingSettles? && q.ClearingSettles?)
    || (p.Republishing? && q.Republishing?)
  }

  lemma NamesAppend(tries: seq<Try>, t: Try)
    ensures Names(tries + [t]) == Names(tries) + [t.name]
  {
    assert (tries + [t])[..|tries|] == tries;
  }

  /** A name is tried by moving its file, if it is there, and the listing goes on. */
  lemma HeadDecides(files: Files, p: Proc, move: Move)
    requires Tries(p) && move.Go?
    ensures var o, from := Decide(files, p, move), Path(Source(p), p.listing[0]);
            && (if from !in files then o.op == NoOp
                else match Landing(p)
                     case None => o.op == Remove(from)
                     case Some(dir) => o.op.Rename? && o.op.from == from && o.op.to.dir == dir)
            && (if p.Claiming? && from in files then o.proc == ClaimReading(p.listing[0], p.listing[1..])
                else SameListing(p, o.proc) && Lists(o.proc) && !o.proc.ClaimReading? && !o.proc.ClaimDiscarding?
                     && o.proc.listing == p.listing[1..])
  {
  }

  /** A file that a claim took is read, and discarded if it is not a message. */
  lemma ReadDecides(files: Files, p: Proc, move: Move)
    requires p.ClaimReading? || p.ClaimDiscarding?
    ensures var o, path := Decide(files, p, move), Path(InProgressDir, p.name);
            && (move.Go? && p.ClaimReading? ==>
                  && o.op == NoOp
                  && o.proc == if path !in files then Proc.Claiming(p.listing)
                               else if files[path].Message? then Holding(p.name, files[path].envelope.CountAttempt())
                               else ClaimDiscarding(p.name, p.listing))
            && (move.Go? && p.ClaimDiscarding? ==>
                  && o.proc == Proc.Claiming(p.listing)
                  && (path in files ==> o.op.Rename? && o.op.from == path && o.op.to.dir == FailedDir))
            && (move.Fail? ==>
                  o.proc == if p.ClaimReading? then ClaimDiscarding(p.name, p.listing) else Proc.Claiming(p.listing))
            && (!move.Go? && !move.Fail? && !move.Crash? ==> o.proc == p)
            && (move.Crash? ==> o.proc == Idle)
  {
  }

  lemma OperationLeaves(s: State, pid: Pid, move: Move, from: Path, to: Option<Dir>)
    requires Bookkeeping(s) && Enabled(s, Decide(s.files, ProcOf(s, pid), move)) && from in s.files
    requires var op := Decide(s.files, ProcOf(s, pid), move).op;
             if to.None? then op == Remove(from) else op.Rename? && op.from == from && op.to.dir == to.value
    ensures Left(s.files, Apply(s, pid, move).files, from, to)
  {
    hide Decide;
    StepReplacesNothing(s, pid, move);
    if to.Some? {
      var path := Decide(s.files, ProcOf(s, pid), move).op.to;
      assert path in Apply(s, pid, move).files && path !in s.files;
    }
  }

  ghost predicate StepGoal(s: State, pid: Pid, move: Move, tries: seq<Try>, listing: seq<Name>) {
    var p, q := ProcOf(s, pid), Decide(s.files, ProcOf(s, pid), move).proc;
    var tries' := NextTries(tries, p, move, s.files, Apply(s, pid, move).files);
    && Covered(q, tries', NextListing(listing, p, move))
    && (Lists(p) && move.Go? ==> Progress(p, q, tries, tries', listing))
  }

  function Tried(files: Files, p: Proc): Try
    requires Tries(p)
  {
    Try(p.listing[0], if Path(Source(p), p.listing[0]) in files then Took else Absent)
  }

  lemma HeadTries(s: State, pid: Pid, move: Move, tries: seq<Try>)
    requires Bookkeeping(s) && Enabled(s, Decide(s.files, ProcOf(s, pid), move))
    requires Tries(ProcOf(s, pid)) && move.Go?
    ensures var p := ProcOf(s, pid);
            NextTries(tries, p, move, s.files, Apply(s, pid, move).files) == tries + [Tried(s.files, p)]
  {
    hide Decide;
    hide Apply;
    hide Left;
    var p := ProcOf(s, pid);
    var from := Path(Source(p), p.listing[0]);
    HeadDecides(s.files, p, move);
    if from in s.files {
      OperationLeaves(s, pid, move, from, Landing(p));
    }
  }

  /** The process after a try, and what is tried. */
  lemma HeadCovered(files: Files, p: Proc, q: Proc, tries: seq<Try>, listing: seq<Name>)
    requires Tries(p) && Covered(p, tries, listing)
    requires if p.Claiming? && Path(PendingDir, p.listing[0]) in files
             then q == ClaimReading(p.listing[0], p.listing[1..])
             else SameListing(p, q) && Lists(q) && !q.ClaimReading? && !q.ClaimDiscarding?
                  && q.listing == p.listing[1..]
    ensures Covered(q, tries + [Tried(files, p)], listing) && SameListing(p, q)
  {
    var t := Tried(files, p);
    NamesAppend(tries, t);
    assert p.listing == [p.listing[0]] + p.listing[1..];
    assert (tries + [t])[..|tries|] == tries;
  }

  lemma HeadStep(s: State, pid: Pid, move: Move, tries: seq<Try>, listing: seq<Name>)
    requires Bookkeeping(s) && Enabled(s, Decide(s.files, ProcOf(s, pid), move))
    requires Tries(ProcOf(s, pid)) && move.Go? && Covered(ProcOf(s, pid), tries, listing)
    ensures StepGoal(s, pid, move, tries, listing)
  {
    hide Decide;
    hide Apply;
    hide NextTries;
    hide Covered;
    hide SameListing;
    hide Tried;
    var p := ProcOf(s, pid);
    HeadDecides(s.files, p, move);
    HeadTries(s, pid, move, tries);
    HeadCovered(s.files, p, Decide(s.files, p, move).proc, tries, listing);
  }

  function ReadFate(files: Files, p: Proc, move: Move): Fate
    requires p.ClaimReading? || p.ClaimDiscarding?
  {
    var path := Path(InProgressDir, p.name);
    if move.Go? && path !in files then Gone
    else if move.Go? && p.ClaimReading? then if files[path].Message? then Held else Took
    else if move.Go? then Discarded
    else if move.Fail? && p.ClaimDiscarding? then NotDiscarded
    else Took
  }

  lemma ReadTries(s: State, pid: Pid, move: Move, front: seq<Try>)
    requires Bookkeeping(s) && Enabled(s, Decide(s.files, ProcOf(s, pid), move))
    requires ProcOf(s, pid).ClaimReading? || ProcOf(s, pid).ClaimDiscarding?
    ensures var p := ProcOf(s, pid);
            NextTries(front + [Try(p.name, Took)], p, move, s.files, Apply(s, pid, move).files)
            == front + [Try(p.name, ReadFate(s.files, p, move))]
  {
    hide Decide;
    hide Apply;
    hide Left;
    var p := ProcOf(s, pid);
    ReadDecides(s.files, p, move);
    if move.Go? && p.ClaimDiscarding? && Path(InProgressDir, p.name) in s.files {
      OperationLeaves(s, pid, move, Path(InProgressDir, p.name), Some(FailedDir));
    }
    assert (front + [Try(p.name, Took)])[..|front|] == front;
  }

  lemma ReadCovered(files: Files, p: Proc, move: Move, q: Proc, front: seq<Try>, listing: seq<Name>)
    requires p.ClaimReading? || p.ClaimDiscarding?
    requires Covered(p, front + [Try(p.name, Took)], listing) && q == Decide(files, p, move).proc
    ensures var tries' := front + [Try(p.name, ReadFate(files, p, move))];
            Covered(q, tries', listing)
            && (move.Go? ==> SameListing(p, q) || (q.Holding? && tries'[|tries'| - 1] == Try(q.name, Held)))
  {
    hide Decide;
    ReadDecides(files, p, move);
    NamesAppend(front, Try(p.name, Took));
    NamesAppend(front, Try(p.name, ReadFate(files, p, move)));
    assert forall f: Fate :: (front + [Try(p.name, f)])[..|front|] == front;
  }

  lemma ReadStep(s: State, pid: Pid, move: Move, tries: seq<Try>, listing: seq<Name>)
    requires Bookkeeping(s) && Enabled(s, Decide(s.files, ProcOf(s, pid), move))
    requires ProcOf(s, pid).ClaimReading? || ProcOf(s, pid).ClaimDiscarding?
    requires Covered(ProcOf(s, pid), tries, listing)
    ensures StepGoal(s, pid, move, tries, listing)
  {
    var p := ProcOf(s, pid);
    var front := tries[..|tries| - 1];
    assert tries == front + [Try(p.name, Took)];
    hide Decide;
    hide Apply;
    hide NextTries;
    hide Covered;
    hide SameListing;
    hide ReadFate;
    ReadTries(s, pid, move, front);
    ReadCovered(s.files, p, move, Decide(s.files, p, move).proc, front, listing);
  }

  /** The other steps begin a call, end a listing, fail or crash. */
  lemma OtherDecides(files: Files, p: Proc, move: Move)
    requires !p.ClaimReading? && !p.ClaimDiscarding? && !(Tries(p) && move.Go?)
    ensures var q := Decide(files, p, move).proc;
            && (p.Idle? && move.Begin? ==>
                  match move.task
                  case Publish(_, _) => !Lists(q)
                  case Claim(names) => q == Proc.Claiming(names)
                  case Recover(names) => q == Recovering(names)
                  case Clear(stage, names) => q == Clearing(stage, names)
                  case Republish(names) => q == Republishing(names))
            && (Lists(p) && move.Go? ==>
                  p.listing == []
                  && (!Lists(q) || (p.Recovering? && q == RecoveringSettles(move.listing))
                      || (p.Clearing? && q == ClearingSettles(move.listing))))
            && (!(p.Idle? && move.Begin?) && !(Lists(p) && move.Go?) && Lists(q) ==> q == p)
  {
  }

  lemma StepCovered(s: State, pid: Pid, move: Move, tries: seq<Try>, listing: seq<Name>)
    requires Bookkeeping(s) && Enabled(s, Decide(s.files, ProcOf(s, pid), move))
    requires Covered(ProcOf(s, pid), tries, listing)
    ensures StepGoal(s, pid, move, tries, listing)
  {
    hide Decide;
    hide Apply;
    var p := ProcOf(s, pid);
    if Tries(p) && move.Go? {
      HeadStep(s, pid, move, tries, listing);
    } else if p.ClaimReading? || p.ClaimDiscarding? {
      ReadStep(s, pid, move, tries, listing);
    } else {
      OtherDecides(s.files, p, move);
    }
  }

  lemma ProcAfter(s: State, mover: Pid, move: Move, pid: Pid)
    ensures ProcOf(Apply(s, mover, move), pid)
         == var o := Decide(s.files, ProcOf(s, pid), move);
            if mover == pid && Enabled(s, o) then o.proc else ProcOf(s, pid)
  {
    hide Decide;
  }

  /** A step of the process itself. */
  lemma OwnStep(s: State, pid: Pid, move: Move, tries: seq<Try>, listing: seq<Name>)
    requires Safe(s) && Enabled(s, Decide(s.files, ProcOf(s, pid), move)) && Covered(ProcOf(s, pid), tries, listing)
    ensures var p, s' := ProcOf(s, pid), Apply(s, pid, move);
            var tries' := NextTries(tries, p, move, s.files, s'.files);
            && Covered(ProcOf(s', pid), tries', NextListing(listing, p, move))
            && (Lists(p) && move.Go? ==> Progress(p, ProcOf(s', pid), tries, tries', listing))
  {
    hide Decide;
    hide Covered;
    hide NextTries;
    hide NextListing;
    hide Progress;
    hide Apply;
    StepCovered(s, pid, move, tries, listing);
    ProcAfter(s, pid, move, pid);
  }

  lemma {:induction false} RunCovered(start: State, steps: seq<Step>, n: nat, pid: Pid)
    requires Starts(start) && n <= |steps|
    ensures Covered(ProcOf(Run(start, steps, n), pid), TriesAfter(start, steps, n, pid),
                    ListingAfter(start, steps, n, pid))
  {
    hide Decide;
    hide Covered;
    hide NextTries;
    hide NextListing;
    hide Apply;
    hide Safe;
    hide Enabled;
    if n == 0 {
      IdleCovered([], []);
    } else {
      var s, last := Run(start, steps, n - 1), steps[n - 1];
      var tries, listing := TriesAfter(start, steps, n - 1, pid), ListingAfter(start, steps, n - 1, pid);
      RunCovered(start, steps, n - 1, pid);
      RunSafe(start, steps, n - 1);
      ProcAfter(s, last.pid, last.move, pid);
      if last.pid == pid && Enabled(s, Decide(s.files, ProcOf(s, pid), last.move)) {
        OwnStep(s, pid, last.move, tries, listing);
      }
    }
  }

  lemma IdleCovered(tries: seq<Try>, listing: seq<Name>)
    ensures Covered(Idle, tries, listing)
  {
  }

  /** A claim, recovery, clear or republish that meets no failure leaves its listing only at the
      end, with every name of it tried in order, whatever other processes do. A name was absent
      where the call looks for it, at its own step, or its file was moved where it goes. A claim
      that ends with nothing found every file absent, or took it and found it gone or unreadable.
      The other way to leave is with the file that the claim took last, which holds a message. */
  lemma ListingIsTried(start: State, steps: seq<Step>, n: nat, pid: Pid)
    requires Starts(start) && n < |steps| && steps[n].pid == pid && steps[n].move.Go?
    requires Lists(ProcOf(Run(start, steps, n), pid))
    ensures Progress(ProcOf(Run(start, steps, n), pid), ProcOf(Run(start, steps, n + 1), pid),
                     TriesAfter(start, steps, n, pid), TriesAfter(start, steps, n + 1, pid),
                     ListingAfter(start, steps, n, pid))
  {
    hide Decide;
    hide Covered;
    hide NextTries;
    hide NextListing;
    hide Apply;
    hide Safe;
    hide Enabled;
    var s := Run(start, steps, n);
    RunCovered(start, steps, n, pid);
    RunSafe(start, steps, n);
    ProcAfter(s, pid, steps[n].move, pid);
    if Enabled(s, Decide(s.files, ProcOf(s, pid), steps[n].move)) {
      OwnStep(s, pid, steps[n].move, TriesAfter(start, steps, n, pid), ListingAfter(start, steps, n, pid));
    }
  }
}
