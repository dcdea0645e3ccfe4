/** What a stored attempt count means in the file driver, where a settle may leave its old file
    beside its new copy: every file counts the settles of its own line. */
module FileAccounting {
  import opened Integers
  import opened Messages
  import opened Disk
  import opened FileProtocol
  import opened FileProtocolContents
  import opened FileProtocolSafety

  /** How a file came about: the attempts its message was published with, or had at the start, and
      the retries and moves to failed that wrote it and the files it was copied from. */
  datatype Account = Account(start: nat, counted: nat)

  /** `counts` says of the last settle that a process began whether it is a retry or a move to
      failed, and not a release. */
  datatype Book = Book(accounts: map<Name, Account>, counts: map<Pid, bool>)

  function AttemptsOf(x: Raw): nat {
    if x.Message? then x.envelope.attempts else 0
  }

  /** A settle stores the attempt count of its claim, or one less for a release. A release is not
      repeated after an error, and a claim does not wrap the count. */
  ghost predicate Regular(s: State, pid: Pid, move: Move) {
    var p := ProcOf(s, pid);
    && (move.Settle? && p.Holding? ==>
          && p.name in s.born && p.envelope.attempts == AttemptsOf(s.born[p.name].contents) + 1
          && (move.attempts == p.envelope.attempts || move.attempts == p.envelope.attempts - 1))
  }

  ghost predicate RegularRun(start: State, steps: seq<Step>, n: nat)
    requires n <= |steps|
  {
    n == 0
    || (RegularRun(start, steps, n - 1) && Regular(Run(start, steps, n - 1), steps[n - 1].pid, steps[n - 1].move))
  }

  function Line(book: Book, n: Name): Account {
    if n in book.accounts then book.accounts[n] else Account(0, 0)
  }

  function Counting(book: Book, pid: Pid): bool {
    pid in book.counts && book.counts[pid]
  }

  /** The account of a file that the step writes or renames. */
  function NewLine(book: Book, s: State, pid: Pid, op: FsOp): map<Name, Account> {
    var p := ProcOf(s, pid);
    match op
    case Write(path, contents) =>
      if !p.SettleWriting? then book.accounts[path.name := Account(AttemptsOf(contents), 0)]
      else
        var line := Line(book, p.name);
        book.accounts[path.name := if Counting(book, pid) then line.(counted := line.counted + 1) else line]
    case Rename(from, to) => if from in s.files then book.accounts[to.name := Line(book, from.name)] else book.accounts
    case _ => book.accounts
  }

  function Note(book: Book, s: State, pid: Pid, move: Move): Book {
    var p, o := ProcOf(s, pid), Decide(s.files, ProcOf(s, pid), move);
    if o.spare.Some? && o.spare.value in s.issued then book
    else Book(NewLine(book, s, pid, o.op),
              if move.Settle? && p.Holding? then book.counts[pid := move.attempts == p.envelope.attempts]
              else book.counts)
  }

  function BookAfter(start: State, steps: seq<Step>, n: nat): Book
    requires n <= |steps|
  {
    if n == 0 then Book(map name | name in start.born :: Account(AttemptsOf(start.born[name].contents), 0), map[])
    else Note(BookAfter(start, steps, n - 1), Run(start, steps, n - 1), steps[n - 1].pid, steps[n - 1].move)
  }

  /** A settle under way stores the count of its old file, and one more if it counts. */
  ghost predicate SettleOk(s: State, book: Book, pid: Pid) {
    var p := ProcOf(s, pid);
    p.SettleChecking? || p.SettleWriting? ==>
      p.name in s.born
      && p.envelope.attempts == AttemptsOf(s.born[p.name].contents) + if Counting(book, pid) then 1 else 0
  }

  ghost predicate LinesOk(s: State, book: Book) {
    forall n | n in s.born ::
      n in book.accounts && AttemptsOf(s.born[n].contents) == book.accounts[n].start + book.accounts[n].counted
  }

  ghost predicate Accounted(s: State, book: Book) {
    && LinesOk(s, book)
    && (forall pid | pid in s.procs :: SettleOk(s, book, pid))
  }

  /** How a settle gets to its write. */
  lemma SettleKinds(s: State, p: Proc, move: Move)
    requires p.HasDelivery() ==> p.name in s.born
    ensures var o := Decide(s.files, p, move);
            o.proc.SettleChecking? || o.proc.SettleWriting? ==>
              && p.HasDelivery() && o.proc.name == p.name
              && ((move.Settle? && p.Holding? && o.proc.envelope.attempts == move.attempts)
                  || ((p.SettleChecking? || p.SettleWriting?) && o.proc.envelope == p.envelope
                      && !(move.Settle? && p.Holding?)))
  {
  }

  lemma LinesStep(s: State, book: Book, pid: Pid, move: Move)
    requires Bookkeeping(s) && LinesOk(s, book) && SettleOk(s, book, pid)
    ensures LinesOk(Apply(s, pid, move), Note(book, s, pid, move))
  {
    hide Decide;
    var p := ProcOf(s, pid);
    if Enabled(s, Decide(s.files, p, move)) {
      assert ProcOk(s, p);
      OutcomeNamesNew(s, p, move);
      WritesItsMessage(s.files, p, move);
    }
  }

  lemma SettlesStep(s: State, book: Book, pid: Pid, move: Move, q: Pid)
    requires Bookkeeping(s) && Regular(s, pid, move) && SettleOk(s, book, q)
    ensures SettleOk(Apply(s, pid, move), Note(book, s, pid, move), q)
  {
    hide Decide;
    hide NewLine;
    assert ProcOk(s, ProcOf(s, q));
    BornStaysStep(s, pid, move);
    if q == pid {
      SettleKinds(s, ProcOf(s, pid), move);
    }
  }

  lemma AccountedStep(s: State, book: Book, pid: Pid, move: Move)
    requires Bookkeeping(s) && Accounted(s, book) && Regular(s, pid, move)
    ensures Accounted(Apply(s, pid, move), Note(book, s, pid, move))
  {
    hide Decide;
    hide Note;
    hide LinesOk;
    hide SettleOk;
    NoSettle(s, book, pid);
    LinesStep(s, book, pid, move);
    forall q | q in Apply(s, pid, move).procs ensures SettleOk(Apply(s, pid, move), Note(book, s, pid, move), q) {
      NoSettle(s, book, q);
      SettlesStep(s, book, pid, move, q);
    }
  }

  /** An idle process is in no settle. */
  lemma NoSettle(s: State, book: Book, q: Pid)
    requires Accounted(s, book)
    ensures SettleOk(s, book, q)
  {
  }

  lemma {:induction false} RunAccounted(start: State, steps: seq<Step>, n: nat)
    requires n <= |steps| && Starts(start) && RegularRun(start, steps, n)
    ensures Accounted(Run(start, steps, n), BookAfter(start, steps, n))
  {
    hide Apply;
    hide Note;
    if n > 0 {
      RunAccounted(start, steps, n - 1);
      RunSafe(start, steps, n - 1);
      AccountedStep(Run(start, steps, n - 1), BookAfter(start, steps, n - 1), steps[n - 1].pid, steps[n - 1].move);
    }
  }

  /** Whatever operations fail, late sync errors included, and whatever processes stop, each file of
      a message counts the attempts that its line began with, and one for each retry and move to
      failed that wrote a file of the line. So of two copies of a message, each counts its own. */
  lemma FileCountsItsLine(start: State, steps: seq<Step>, n: nat, path: Path)
    requires n <= |steps| && Starts(start) && RegularRun(start, steps, n)
    requires path in Run(start, steps, n).files && Run(start, steps, n).files[path].Message?
    ensures var line := Line(BookAfter(start, steps, n), path.name);
            Run(start, steps, n).files[path].envelope.attempts == line.start + line.counted
  {
    RunAccounted(start, steps, n);
    RunSafe(start, steps, n);
  }
}
