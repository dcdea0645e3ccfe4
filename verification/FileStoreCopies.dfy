/** How many copies of a message a settle of the file store leaves. */
module FileStoreCopies {
  import opened Integers
  import opened Messages
  import opened Disk
  import opened AbstractQueue
  import opened Directories
  import opened FileStoreEffects
  import opened Conservation

  lemma TakeOneOut(s: seq<Raw>, i: nat, id: nat)
    requires i < |s|
    ensures CountId(RemoveAt(s, i), id) == CountId(s, id) - IdOf(s[i], id)
  {
    assert s == s[..i] + [s[i]] + s[i + 1..];
    CountSplit(s[..i], s[i], s[i + 1..], id);
    CountAppend(s[..i], s[i + 1..], id);
  }

  /** A settle leaves as many copies of every message as there were, except that it leaves one
      more of its own exactly when its new copy is written and it then meets a late sync error or
      does not remove the settling file. It never leaves less. */
  lemma SettleCopies(d: Dirs, q: Queue, name: Name, envelope: Envelope, target: Dir, faults: SettleFaults,
                     d': Dirs, q': Queue, id: nat)
    requires target == PendingDir || target == FailedDir
    requires SettleOutcome(d, q, name, Message(envelope), target, faults, d', q')
    requires d.Claimed()[name].HasId(envelope.id)
    ensures Total(q', id) == Total(q, id)
            + if id == envelope.id && !faults.write && (faults.sync || faults.remove) then 1 else 0
  {
    var i := Rank(d.Claimed(), name);
    TakeOneOut(q.inProgress, i, id);
    AppendCount(q, StageOf(target), Message(envelope), id);
    AppendCount(q.(inProgress := RemoveAt(q.inProgress, i)), StageOf(target), Message(envelope), id);
  }

  // ---------------------------------------------------------------- settles that are repeated

  predicate Faulty(f: SettleFaults) {
    f.write || f.sync || f.remove
  }

  predicate Interrupts(f: SettleFaults) {
    f.write || f.sync
  }

  /** The directories after the first `n` settles of one delivery. */
  function Pursued(d: Dirs, next: Name, name: Name, copied: Raw, target: Dir, faults: seq<SettleFaults>,
                   n: nat): (Dirs, Name)
    requires n <= |faults| && (target == PendingDir || target == FailedDir)
  {
    if n == 0 then (d, next)
    else
      var (d', next') := Pursued(d, next, name, copied, target, faults, n - 1);
      var f := faults[n - 1];
      if name in d'.Claimed() then
        (Settled(Begun(d', name), next', name, copied, target, f), next' + if f.write then 0 else 1)
      else (d', next')
  }

  function Copies(copied: Raw, faults: seq<SettleFaults>, n: nat): seq<Raw>
    requires n <= |faults|
  {
    if n == 0 then [] else Copies(copied, faults, n - 1) + if faults[n - 1].write then [] else [copied]
  }

  /** The claimed file stays, or was removed by the last settle. */
  predicate Stays(faults: seq<SettleFaults>, n: nat)
    requires n <= |faults|
  {
    n == 0 || Faulty(faults[n - 1])
  }

  ghost predicate PursuedTo(d: Dirs, next: Name, q: Queue, name: Name, copied: Raw, target: Dir,
                            faults: seq<SettleFaults>, n: nat, d': Dirs, next': Name)
    requires n <= |faults|
  {
    var i, stage := Rank(d.Claimed(), name), StageOf(target);
    && name in d.Claimed()
    && i < |q.inProgress| && q.inProgress[i] == d.Claimed()[name]
    && (if Stays(faults, n) then d'.Claimed() == d.Claimed() else name !in d'.Claimed())
    && var all := q.With(stage, q.Get(stage) + Copies(copied, faults, n));
       Shows(d', next', if Stays(faults, n) then all else all.(inProgress := RemoveAt(q.inProgress, i)))
  }

  lemma PursuedStart(d: Dirs, next: Name, q: Queue, name: Name, copied: Raw, target: Dir, faults: seq<SettleFaults>)
    requires Shows(d, next, q) && name in d.Claimed() && (target == PendingDir || target == FailedDir)
    ensures PursuedTo(d, next, q, name, copied, target, faults, 0, d, next)
  {
    hide Ordered; hide ViewOf;
    BegunEffect(d, next, q, name);
    RemovedEffect(Begun(d, name), next, q, name);
    assert q.Get(StageOf(target)) + [] == q.Get(StageOf(target));
  }

  lemma PursuedNext(d: Dirs, next: Name, q: Queue, name: Name, copied: Raw, target: Dir, faults: seq<SettleFaults>,
                    n: nat, d': Dirs, next': Name)
    requires n < |faults| && (target == PendingDir || target == FailedDir) && Stays(faults, n)
    requires PursuedTo(d, next, q, name, copied, target, faults, n, d', next')
    ensures var f := faults[n];
            PursuedTo(d, next, q, name, copied, target, faults, n + 1,
                      Settled(Begun(d', name), next', name, copied, target, f), next' + if f.write then 0 else 1)
  {
    hide Ordered; hide ViewOf; hide Settled; hide Begun;
    var stage, f := StageOf(target), faults[n];
    var all := q.With(stage, q.Get(stage) + Copies(copied, faults, n));
    var all' := q.With(stage, q.Get(stage) + Copies(copied, faults, n + 1));
    assert all' == if f.write then all else all.Append(stage, copied);
    SettleEffect(d', next', all, name, copied, target, f);
  }

  /** A retry or a move to failed of the claimed message `c` that is repeated while it reports an
      error adds a copy that counts the attempt for each write that did not fail early. The claimed
      file, which lacks the attempt, goes on beside them exactly when the last settle met a fault,
      a late sync error or a settling file that stays included. */
  lemma {:induction false} OlderCopyUndercounts(d: Dirs, next: Name, q: Queue, name: Name, c: Envelope, target: Dir,
                                                faults: seq<SettleFaults>, n: nat)
    requires Shows(d, next, q) && name in d.Claimed() && d.Claimed()[name] == Message(c) && c.attempts < U32_MAX
    requires n <= |faults| && (target == PendingDir || target == FailedDir)
    requires forall i | 0 <= i < n - 1 :: Interrupts(faults[i])
    ensures var counted := Message(c.(attempts := c.attempts + 1));
            var (d', next') := Pursued(d, next, name, Message(c.CountAttempt()), target, faults, n);
            PursuedTo(d, next, q, name, counted, target, faults, n, d', next')
  {
    hide PursuedTo;
    if n == 0 {
      PursuedStart(d, next, q, name, Message(c.CountAttempt()), target, faults);
    } else {
      OlderCopyUndercounts(d, next, q, name, c, target, faults, n - 1);
      var (d', next') := Pursued(d, next, name, Message(c.CountAttempt()), target, faults, n - 1);
      PursuedClaimed(d, next, q, name, Message(c.CountAttempt()), target, faults, n - 1, d', next');
      PursuedNext(d, next, q, name, Message(c.CountAttempt()), target, faults, n - 1, d', next');
    }
  }

  lemma PursuedClaimed(d: Dirs, next: Name, q: Queue, name: Name, copied: Raw, target: Dir,
                       faults: seq<SettleFaults>, n: nat, d': Dirs, next': Name)
    requires n <= |faults| && PursuedTo(d, next, q, name, copied, target, faults, n, d', next')
    ensures name in d'.Claimed() <==> Stays(faults, n)
  {
  }
}
