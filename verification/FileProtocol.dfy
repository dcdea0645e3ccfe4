/** The file driver as a concurrent protocol. Every caller of `store.rs` is a process with a
    program counter, and every atomic file operation is one step. Processes interleave in any
    order, any file operation may fail, and a process may stop between any two steps. */
module FileProtocol {
  import opened Integers
  import opened Messages
  import opened Disk

  type Pid = nat

  type TargetDir = d: Dir | d == PendingDir || d == FailedDir witness PendingDir

  /** The program counter of one caller, named after the operation it does next. */
  datatype Proc =
    | Idle
    // publish and its write_atomic
    | Publishing(name: Name, envelope: Envelope)
    | PublishSyncing(name: Name, envelope: Envelope)
    // claim_oldest, with the rest of its directory listing
    | Claiming(listing: seq<Name>)
    | ClaimReading(name: Name, listing: seq<Name>)
    | ClaimDiscarding(name: Name, listing: seq<Name>)
    // a delivery, and move_claimed
    | Holding(name: Name, envelope: Envelope)
    | SettleChecking(name: Name, envelope: Envelope, target: TargetDir)
    | SettleWriting(name: Name, envelope: Envelope, target: TargetDir)
    | SettleSyncing(name: Name, envelope: Envelope, target: TargetDir, copy: Name)
    | SettleRemoving(name: Name, envelope: Envelope, target: TargetDir, copy: Name)
    | SettleUndoing(name: Name, envelope: Envelope, target: TargetDir, copy: Name)
    | SettleRestoring(name: Name, envelope: Envelope)
    // recover, clear and republish_failed
    | Recovering(listing: seq<Name>)
    | RecoveringSettles(listing: seq<Name>)
    | Clearing(stage: Stage, listing: seq<Name>)
    | ClearingSettles(listing: seq<Name>)
    | Republishing(listing: seq<Name>)
  {
    /** The process has written the new copy of a settle and not yet finished with it. */
    predicate HasCopy() {
      SettleSyncing? || SettleRemoving? || SettleUndoing?
    }

    /** The process still counts on its new copy to replace the settling file. */
    predicate CountsOnCopy() {
      SettleSyncing? || SettleRemoving?
    }

    predicate HasDelivery() {
      Holding? || SettleChecking? || SettleWriting? || SettleRestoring? || HasCopy()
    }

    /** The process claimed this base name and has not finished with it. */
    predicate Claims(n: Name) {
      (ClaimReading? || ClaimDiscarding? || HasDelivery()) && name == n
    }
  }

  datatype Task =
    | Publish(name: Name, envelope: Envelope)
    | Claim(listing: seq<Name>)
    | Recover(listing: seq<Name>)
    | Clear(stage: Stage, listing: seq<Name>)
    | Republish(listing: seq<Name>)

  /** What the environment chooses for a process. A directory listing is not atomic, so it is an
      arbitrary sequence of names. A settle may store any attempt count. */
  datatype Move =
    | Begin(task: Task)
    | Acknowledge
    | Settle(attempts: u32, target: TargetDir)
    | Go(spare: Name, listing: seq<Name>)
    | Fail
    | Crash

  datatype Event =
    | Quiet
    | Published(name: Name, id: nat)
    | PublishReported(name: Name)
    | Claimed(name: Name)
    | Acknowledged(name: Name)
    | Settled(name: Name)
    | SettledUnremoved(name: Name)
    | LostBeforeCopy(name: Name)
    | LostAfterCopy(name: Name, copy: Name)
    | Returned(name: Name)
    | Cleared(name: Name)
    | Rehomed(name: Name)

  /** How a file name came to exist. Names are not reused, so the record of a name is final. */
  datatype Birth = Birth(contents: Raw, dir: Dir, time: nat)

  /** `live` holds the ids that were published and then neither acknowledged nor cleared.
      `born`, `live` and `events` are history: no step reads them. */
  datatype State = State(
    files: Files,
    procs: map<Pid, Proc>,
    issued: set<Name>,
    clock: nat,
    born: map<Name, Birth>,
    live: set<nat>,
    events: multiset<Event>)

  datatype Outcome = Outcome(proc: Proc, op: FsOp, event: Event, spare: Option<Name>)

  function Quietly(proc: Proc): Outcome {
    Outcome(proc, NoOp, Quiet, None)
  }

  function StageDir(stage: Stage): Dir {
    match stage
    case Pending => PendingDir
    case InProgress => InProgressDir
    case Failed => FailedDir
  }

  function ProcOf(s: State, pid: Pid): Proc {
    if pid in s.procs then s.procs[pid] else Idle
  }

  function BeginTask(task: Task): Outcome {
    match task
    case Publish(name, envelope) => Outcome(Publishing(name, envelope), NoOp, Quiet, Some(name))
    case Claim(listing) => Quietly(Claiming(listing))
    case Recover(listing) => Quietly(Recovering(listing))
    case Clear(stage, listing) => Quietly(Clearing(stage, listing))
    case Republish(listing) => Quietly(Republishing(listing))
  }

  /** The step of a process whose next file operation succeeds. */
  function GoOutcome(files: Files, p: Proc, spare: Name, listing: seq<Name>): Outcome {
    match p
    case Publishing(name, envelope) =>
      Outcome(PublishSyncing(name, envelope), Write(Path(PendingDir, name), Message(envelope)),
              Published(name, envelope.id), None)
    case PublishSyncing(name, envelope) =>
      Outcome(Idle, NoOp, PublishReported(name), None)
    case Claiming(names) =>
      if names == [] then Quietly(Idle)
      else if Path(PendingDir, names[0]) in files then
        Outcome(ClaimReading(names[0], names[1..]),
                Rename(Path(PendingDir, names[0]), Path(InProgressDir, names[0])), Claimed(names[0]), None)
      else Quietly(Claiming(names[1..]))
    case ClaimReading(name, rest) =>
      if Path(InProgressDir, name) !in files then Quietly(Claiming(rest))
      else (match files[Path(InProgressDir, name)]
            case Message(envelope) => Quietly(Holding(name, envelope.CountAttempt()))
            case Malformed(_) => Quietly(ClaimDiscarding(name, rest)))
    case ClaimDiscarding(name, rest) =>
      if Path(InProgressDir, name) in files then
        Outcome(Claiming(rest), Rename(Path(InProgressDir, name), Path(FailedDir, spare)), Rehomed(name), Some(spare))
      else Quietly(Claiming(rest))
    case SettleChecking(name, envelope, target) =>
      if Path(SettlingDir, name) in files then Quietly(SettleWriting(name, envelope, target))
      else Outcome(Idle, NoOp, LostBeforeCopy(name), None)
    case SettleWriting(name, envelope, target) =>
      Outcome(SettleSyncing(name, envelope, target, spare), Write(Path(target, spare), Message(envelope)), Quiet,
              Some(spare))
    case SettleSyncing(name, envelope, target, copy) =>
      Quietly(SettleRemoving(name, envelope, target, copy))
    case SettleRemoving(name, envelope, target, copy) =>
      if Path(SettlingDir, name) in files then
        Outcome(Idle, Remove(Path(SettlingDir, name)), Settled(name), None)
      else Quietly(SettleUndoing(name, envelope, target, copy))
    case SettleUndoing(name, envelope, target, copy) =>
      Outcome(Idle, Remove(Path(target, copy)), LostAfterCopy(name, copy), None)
    case SettleRestoring(name, envelope) =>
      Outcome(Holding(name, envelope), Rename(Path(SettlingDir, name), Path(InProgressDir, name)), Quiet, None)
    case Recovering(names) =>
      if names == [] then Quietly(RecoveringSettles(listing))
      else ReturnOutcome(files, Path(InProgressDir, names[0]), Recovering(names[1..]))
    case RecoveringSettles(names) =>
      if names == [] then Quietly(Idle)
      else ReturnOutcome(files, Path(SettlingDir, names[0]), RecoveringSettles(names[1..]))
    case Clearing(stage, names) =>
      if names == [] then Quietly(if stage == InProgress then ClearingSettles(listing) else Idle)
      else ClearOutcome(files, Path(StageDir(stage), names[0]), Clearing(stage, names[1..]))
    case ClearingSettles(names) =>
      if names == [] then Quietly(Idle)
      else ClearOutcome(files, Path(SettlingDir, names[0]), ClearingSettles(names[1..]))
    case Republishing(names) =>
      if names == [] then Quietly(Idle)
      else if Path(FailedDir, names[0]) in files then
        Outcome(Republishing(names[1..]), Rename(Path(FailedDir, names[0]), Path(PendingDir, spare)),
                Rehomed(names[0]), Some(spare))
      else Quietly(Republishing(names[1..]))
    case _ => Quietly(p)
  }

  function ReturnOutcome(files: Files, from: Path, next: Proc): Outcome {
    if from in files then Outcome(next, Rename(from, Path(PendingDir, from.name)), Returned(from.name), None)
    else Quietly(next)
  }

  function ClearOutcome(files: Files, path: Path, next: Proc): Outcome {
    if path in files then Outcome(next, Remove(path), Cleared(path.name), None)
    else Quietly(next)
  }

  /** The step of a process whose next file operation fails and changes nothing. */
  function FailOutcome(p: Proc): Outcome {
    match p
    case Publishing(_, _) | PublishSyncing(_, _) => Quietly(Idle)
    case Claiming(_) => Quietly(Idle)
    // A read error counts as an unreadable message, and a failed discard is only logged.
    case ClaimReading(name, rest) => Quietly(ClaimDiscarding(name, rest))
    case ClaimDiscarding(name, rest) => Quietly(Claiming(rest))
    // exists() answers false when it cannot tell.
    case SettleChecking(name, _, _) => Outcome(Idle, NoOp, LostBeforeCopy(name), None)
    case SettleWriting(name, envelope, _) => Quietly(SettleRestoring(name, envelope))
    case SettleSyncing(name, envelope, _, _) => Quietly(SettleRestoring(name, envelope))
    case SettleRemoving(name, _, _, _) => Outcome(Idle, NoOp, SettledUnremoved(name), None)
    case SettleUndoing(name, envelope, _, _) => Quietly(Holding(name, envelope))
    case SettleRestoring(name, envelope) => Quietly(Holding(name, envelope))
    case Holding(_, _) => Quietly(p)
    case _ => Quietly(Idle)
  }

  function Decide(files: Files, p: Proc, move: Move): Outcome {
    match move
    case Begin(task) => if p.Idle? then BeginTask(task) else Quietly(p)
    case Acknowledge =>
      if !p.Holding? then Quietly(p)
      else if Path(InProgressDir, p.name) in files then
        Outcome(Idle, Remove(Path(InProgressDir, p.name)), Acknowledged(p.name), None)
      else Outcome(Idle, NoOp, LostBeforeCopy(p.name), None)
    case Settle(attempts, target) =>
      if !p.Holding? then Quietly(p)
      else
        var envelope := p.envelope.(attempts := attempts);
        if Path(InProgressDir, p.name) in files then
          Outcome(SettleWriting(p.name, envelope, target),
                  Rename(Path(InProgressDir, p.name), Path(SettlingDir, p.name)), Quiet, None)
        else Quietly(SettleChecking(p.name, envelope, target))
    case Go(spare, listing) => GoOutcome(files, p, spare, listing)
    case Fail => FailOutcome(p)
    case Crash => Quietly(Idle)
  }

  function Births(s: State, op: FsOp): map<Name, Birth> {
    match op
    case Write(path, contents) => s.born[path.name := Birth(contents, path.dir, s.clock)]
    case Rename(from, to) =>
      if from in s.files && from.name != to.name
      then s.born[to.name := Birth(s.files[from], to.dir, s.clock)]
      else s.born
    case _ => s.born
  }

  /** Publishing a message makes its id live. Acknowledging or clearing a copy ends it. */
  function Lives(s: State, o: Outcome): set<nat> {
    match o.event
    case Published(_, id) => s.live + {id}
    case Acknowledged(name) => EndLife(s, name)
    case Cleared(name) => EndLife(s, name)
    case _ => s.live
  }

  function EndLife(s: State, name: Name): set<nat> {
    if name in s.born && s.born[name].contents.Message?
    then s.live - {s.born[name].contents.envelope.id} else s.live
  }

  /** One step of process `pid`. A move that asks for a name in use does nothing. */
  function Apply(s: State, pid: Pid, move: Move): State {
    var o := Decide(s.files, ProcOf(s, pid), move);
    if o.spare.Some? && o.spare.value in s.issued then s
    else State(
      Perform(s.files, o.op),
      s.procs[pid := o.proc],
      if o.spare.Some? then s.issued + {o.spare.value} else s.issued,
      s.clock + 1,
      Births(s, o.op),
      Lives(s, o),
      s.events + multiset{o.event})
  }

  /** A queue with any files under distinct names, and no caller yet. */
  ghost predicate Starts(s: State) {
    && UniqueNames(s.files)
    && s.procs == map[] && s.events == multiset{} && s.clock > 0
    && (forall n | n in s.born :: n in s.issued && s.born[n].time == 0)
    && (forall p | p in s.files :: p.name in s.born && s.born[p.name] == Birth(s.files[p], p.dir, 0))
    && (forall id :: id in s.live <==> exists p :: p in s.files && s.files[p].HasId(id))
  }

  datatype Step = Step(pid: Pid, move: Move)

  /** The state after the first `n` steps of any processes, in any order. */
  function Run(start: State, steps: seq<Step>, n: nat): State
    requires n <= |steps|
  {
    if n == 0 then start
    else Apply(Run(start, steps, n - 1), steps[n - 1].pid, steps[n - 1].move)
  }

  /** Some steps lead from one state to the other. */
  ghost predicate Leads(s: State, s': State) {
    exists steps: seq<Step>, n: nat | n <= |steps| :: s' == Run(s, steps, n)
  }

  /** Some run from some start ends in this state. */
  ghost predicate Reachable(s: State) {
    exists start :: Starts(start) && Leads(start, s)
  }

  /** The moves of one process, one after the other, while the others do nothing. */
  function Alone(s: State, pid: Pid, moves: seq<Move>): State
    decreases |moves|
  {
    if moves == [] then s else Alone(Apply(s, pid, moves[0]), pid, moves[1..])
  }

  lemma AloneStep(s: State, pid: Pid, move: Move, rest: seq<Move>)
    ensures Alone(s, pid, [move] + rest) == Alone(Apply(s, pid, move), pid, rest)
  {
    assert ([move] + rest)[1..] == rest;
  }
}
