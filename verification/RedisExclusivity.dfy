/** When one Redis delivery can take another's claim. A settle finds its element by its bytes, so
    a release whose reply is lost can restore the very bytes that another consumer then claims. */
module RedisExclusivity {
  import opened Integers
  import opened Messages
  import opened AbstractQueue
  import opened RedisLists
  import opened Conservation
  import opened RedisProtocol

  /** A run in which a repeated release takes the claim of another consumer. */
  function StolenClaim(e: Envelope): seq<Action> {
    [Action(0, Publish(e), Arrives),
     Action(1, Claim, Arrives),
     Action(1, Release, LostAfterApply),
     Action(2, Claim, Arrives),
     Action(1, Release, Arrives)]
  }

  /** After it, the second consumer still holds its delivery, and the message is pending again, with
      an attempt less if it had one. */
  lemma ClaimCanBeStolen(e: Envelope)
    requires e.attempts < U32_MAX
    ensures var s := Run(StolenClaim(e), 5);
            && ProcOf(s, 2) == Holding(Message(e), e.CountAttempt())
            && s.lists == Lists([Message(e.TakeBackAttempt())], [], [])
  {
    var actions, x := StolenClaim(e), Message(e);
    assert Run(actions, 1) == Apply(Initial(), actions[0]);
    assert Run(actions, 1).lists == Lists([x], [], []);
    assert Run(actions, 2) == Apply(Run(actions, 1), actions[1]);
    assert Run(actions, 2).lists == Lists([], [x], []);
    assert ProcOf(Run(actions, 2), 1) == Holding(x, e.CountAttempt());
    assert Run(actions, 3) == Apply(Run(actions, 2), actions[2]);
    assert Run(actions, 3).lists == Lists([x], [], []);
    assert ProcOf(Run(actions, 3), 1) == Holding(x, e);
    assert Run(actions, 4) == Apply(Run(actions, 3), actions[3]);
    assert Run(actions, 4).lists == Lists([], [x], []);
    assert ProcOf(Run(actions, 4), 1) == Holding(x, e);
    assert ProcOf(Run(actions, 4), 2) == Holding(x, e.CountAttempt());
    assert Run(actions, 5) == Apply(Run(actions, 4), actions[4]);
  }

  // ---------------------------------------------------------------- without a failed release

  /** No release reports an error, no recovery runs beside a delivery, and no claim wraps the
      attempt count. Any other reply may be lost. */
  ghost predicate Calm(s: State, a: Action) {
    && (a.command.Release? ==> a.reply.Arrives?)
    && (a.command.RecoverBatch? ==> forall pid | pid in s.procs :: !s.procs[pid].Holding?)
    && (a.command.Claim? && s.lists.pending != [] && Peeked(s.lists.pending, Right).Message? ==>
          Peeked(s.lists.pending, Right).envelope.attempts < U32_MAX)
  }

  ghost predicate CalmRun(actions: seq<Action>) {
    forall i | 0 <= i < |actions| :: Calm(Run(actions, i), actions[i])
  }

  ghost predicate CalmlyReachable(s: State) {
    exists actions, n: nat | n <= |actions| :: CalmRun(actions) && s == Run(actions, n)
  }

  predicate Waiting(lists: Lists, y: Raw) {
    y in lists.pending || y in lists.failed
  }

  predicate Stored(lists: Lists, y: Raw) {
    Waiting(lists, y) || y in lists.inProgress
  }

  ghost predicate NewerThan(y: Raw, x: Envelope) {
    y.Message? && y.envelope.id == x.id && y.envelope.attempts > x.attempts
  }

  /** A holder's message is in progress as the holder claimed it, or is stored with a larger
      attempt count, or is gone. */
  ghost predicate HolderOk(s: State, p: Proc) {
    p.Holding? ==>
      && p.element.Message?
      && p.element.envelope.attempts < U32_MAX
      && p.envelope == p.element.envelope.CountAttempt()
      && p.envelope.id in s.published
      && forall y | Stored(s.lists, y) && y.HasId(p.envelope.id) ::
           NewerThan(y, p.element.envelope) || (y == p.element && y in s.lists.inProgress)
  }

  ghost predicate Apart(p: Proc, q: Proc) {
    p.Holding? && q.Holding? && p.element.Message? && q.element.Message? ==>
      p.element.envelope.id != q.element.envelope.id || p.element.envelope.attempts != q.element.envelope.attempts
  }

  ghost predicate Exclusive(s: State) {
    && Conserved(s)
    && (forall pid | pid in s.procs :: HolderOk(s, s.procs[pid]))
    && (forall a, b | a in s.procs && b in s.procs && a != b :: Apart(s.procs[a], s.procs[b]))
  }

  lemma {:induction false} RemoveFirstMembers(list: seq<Raw>, x: Raw)
    ensures forall y | y in RemoveFirst(list, x) :: y in list
  {
    if list != [] && list[0] != x {
      RemoveFirstMembers(list[1..], x);
    }
  }

  lemma StoredCount(lists: Lists, y: Raw, id: nat)
    requires y.HasId(id)
    ensures Waiting(lists, y) ==> CountId(lists.pending, id) + CountId(lists.failed, id) >= 1
    ensures y in lists.inProgress ==> CountId(lists.inProgress, id) >= 1
  {
    if y in lists.pending { CountMember(lists.pending, y, id); }
    if y in lists.failed { CountMember(lists.failed, y, id); }
    if y in lists.inProgress { CountMember(lists.inProgress, y, id); }
  }

  /** A message is stored once: if it waits, it is not in progress, and no second one is. */
  lemma StoredOnce(s: State, y: Raw, z: Raw, id: nat)
    requires Conserved(s) && y.HasId(id) && z.HasId(id)
    requires Stored(s.lists, y) && Stored(s.lists, z)
    ensures Waiting(s.lists, y) ==> y !in s.lists.inProgress
    ensures y == z
  {
    assert CountOf(s.lists, id) <= 1;
    StoredCount(s.lists, y, id);
    StoredCount(s.lists, z, id);
    OneInList(s.lists.pending, y, z, id);
    OneInList(s.lists.inProgress, y, z, id);
    OneInList(s.lists.failed, y, z, id);
    if y in s.lists.pending { CountMember(s.lists.pending, y, id); }
    if z in s.lists.pending { CountMember(s.lists.pending, z, id); }
    if y in s.lists.failed { CountMember(s.lists.failed, y, id); }
    if z in s.lists.failed { CountMember(s.lists.failed, z, id); }
  }

  lemma OneInList(list: seq<Raw>, y: Raw, z: Raw, id: nat)
    requires y.HasId(id) && z.HasId(id)
    ensures CountId(list, id) <= 1 && y in list && z in list ==> y == z
  {
    if CountId(list, id) <= 1 && y in list && z in list {
      var i :| 0 <= i < |list| && list[i] == y;
      assert list == list[..i] + [y] + list[i + 1..];
      OnlyOccurrence(list, i, id);
      if z != y {
        assert z in list[..i] + list[i + 1..];
        CountMember(list[..i] + list[i + 1..], z, id);
      }
    }
  }

  // ---------------------------------------------------------------- steps

  /** Every stored message of a holder's id was stored before, and waits only if it waited. */
  ghost predicate NothingNew(l: Lists, l': Lists, id: nat) {
    forall y: Raw | y.HasId(id) ::
      && (Stored(l', y) ==> Stored(l, y))
      && (Waiting(l', y) ==> Waiting(l, y))
  }

  lemma HolderStays(s: State, s': State, p: Proc)
    requires HolderOk(s, p) && s.published <= s'.published
    requires p.Holding? && Conserved(s)
    requires NothingNew(s.lists, s'.lists, p.envelope.id)
    ensures HolderOk(s', p)
  {
    forall y | Stored(s'.lists, y) && y.HasId(p.envelope.id)
      ensures NewerThan(y, p.element.envelope) || (y == p.element && y in s'.lists.inProgress)
    {
      if Waiting(s'.lists, y) {
        StoredOnce(s, y, y, p.envelope.id);
      }
    }
  }

  lemma {:induction false} RepublishNothingNew(l: Lists, n: nat)
    ensures var l' := Moves(l, Failed, Pending, Right, Left, n);
            l'.inProgress == l.inProgress && forall y | Waiting(l', y) :: Waiting(l, y)
    decreases n
  {
    if n > 0 && l.failed != [] {
      RepublishNothingNew(Moved(l, Failed, Pending, Right, Left), n - 1);
    }
  }

  /** A settle replaces the holder's own element by a message with no smaller attempt count, and
      touches nothing else. */
  lemma SettleStored(l: Lists, x: Raw, target: Stage, z: Raw)
    requires target != InProgress
    ensures forall y | Stored(MovedIfPresent(l, x, target, z), y) :: Stored(l, y) || (y == z && x in l.inProgress)
    ensures forall y | Waiting(MovedIfPresent(l, x, target, z), y) :: Waiting(l, y) || (y == z && x in l.inProgress)
  {
    RemoveFirstMembers(l.inProgress, x);
  }

  /** After its own settle took its element, none of the other holder's kind is stored. */
  lemma HolderAfterSettle(s: State, s': State, p: Proc, x: Envelope, target: Stage, z: Envelope)
    requires Conserved(s) && HolderOk(s, p) && p.Holding? && target != InProgress
    requires z.id == x.id && s'.published == s.published
    requires s'.lists == MovedIfPresent(s.lists, Message(x), target, Message(z))
    requires x.id == p.envelope.id && Message(x) in s.lists.inProgress ==> z.attempts > p.element.envelope.attempts
    ensures HolderOk(s', p)
  {
    SettleStored(s.lists, Message(x), target, Message(z));
    forall y | Stored(s'.lists, y) && y.HasId(p.envelope.id)
      ensures NewerThan(y, p.element.envelope) || (y == p.element && y in s'.lists.inProgress)
    {
      if Stored(s.lists, y) && Waiting(s'.lists, y) && Waiting(s.lists, y) {
        StoredOnce(s, y, y, p.envelope.id);
      }
    }
  }

  lemma ClaimStored(l: Lists)
    requires l.pending != []
    ensures var c, l' := Peeked(l.pending, Right), Moved(l, Pending, InProgress, Right, Left);
            && Waiting(l, c) && c in l'.inProgress
            && (forall y | Stored(l', y) :: Stored(l, y))
            && (forall y | Waiting(l', y) :: Waiting(l, y))
            && (forall y | y in l'.inProgress :: y in l.inProgress || y == c)
  {
  }

  /** A claim of another message, or of one that the holder has lost, leaves the holder as it is. */
  lemma HolderAfterClaim(s: State, s': State, p: Proc)
    requires Conserved(s) && HolderOk(s, p) && p.Holding? && s.lists.pending != [] && s'.published == s.published
    requires s'.lists == Moved(s.lists, Pending, InProgress, Right, Left)
    ensures HolderOk(s', p)
  {
    ClaimStored(s.lists);
    HolderStays(s, s', p);
  }

  /** A new delivery is the only stored message of its id, and newer than any other holder's. */
  lemma NewHolder(s: State, s': State, q: Proc)
    requires Exclusive(s) && Conserved(s') && s.lists.pending != []
    requires s'.lists == Moved(s.lists, Pending, InProgress, Right, Left) && s'.published == s.published
    requires Peeked(s.lists.pending, Right).Message? && Peeked(s.lists.pending, Right).envelope.attempts < U32_MAX
    requires q == Holding(Peeked(s.lists.pending, Right), Peeked(s.lists.pending, Right).envelope.CountAttempt())
    ensures HolderOk(s', q)
    ensures forall pid | pid in s.procs :: Apart(q, s.procs[pid])
  {
    var c := q.element;
    var id := c.envelope.id;
    ClaimStored(s.lists);
    StoredCount(s.lists, c, id);
    assert CountOf(s.lists, id) >= 1;
    forall y | Stored(s'.lists, y) && y.HasId(id)
      ensures y == c && y in s'.lists.inProgress
    {
      StoredOnce(s', y, c, id);
    }
    forall pid | pid in s.procs
      ensures Apart(q, s.procs[pid])
    {
      if s.procs[pid].Holding? && s.procs[pid].envelope.id == id {
        StoredOnce(s, c, c, id);
      }
    }
  }

  /** Commands that no delivery notices, apart from its own process's. */
  predicate Unnoticed(command: Command) {
    command.Publish? || command.Intrude? || command.Discard? || command.Acknowledge?
    || command.RepublishBatch? || command.Clear? || command.Crash?
  }

  lemma UnnoticedStored(s: State, p: Proc, command: Command, id: nat)
    requires Conserved(s) && Unnoticed(command) && id in s.published
    requires command.Publish? ==> command.envelope.id !in s.published
    requires p.Discarding? ==> p.element.Malformed?
    ensures NothingNew(s.lists, Server(s, p, command).lists, id)
  {
    match command {
      case Publish(envelope) =>
      case Intrude(_) =>
      case Discard =>
        if p.Discarding? {
          SettleStored(s.lists, p.element, Failed, p.element);
        }
      case Acknowledge =>
        if p.Holding? {
          RemoveFirstMembers(s.lists.inProgress, p.element);
        }
      case RepublishBatch(batch) => RepublishNothingNew(s.lists, batch);
      case Clear(stage) =>
      case Crash =>
    }
  }

  /** What the server does leaves every holder exclusive, the one that asked included. */
  lemma ServerKeepsHolder(s: State, a: Action, h: Proc)
    requires Exclusive(s) && Calm(s, a) && Allowed(s, a) && a.reply != LostBeforeApply
    requires h.Holding? && HolderOk(s, h)
    requires h == ProcOf(s, a.pid) || Apart(ProcOf(s, a.pid), h)
    requires h == ProcOf(s, a.pid) ==> !a.command.Release?
    requires !a.command.RecoverBatch?
    ensures HolderOk(Server(s, ProcOf(s, a.pid), a.command), h)
  {
    var p := ProcOf(s, a.pid);
    var s' := Server(s, p, a.command);
    if Unnoticed(a.command) {
      UnnoticedStored(s, p, a.command, h.envelope.id);
      HolderStays(s, s', h);
    } else if a.command.Claim? {
      if s.lists.pending != [] {
        HolderAfterClaim(s, s', h);
      }
    } else if p.Holding? {
      assert HolderOk(s, p);
      HolderAfterSettle(s, s', h, p.element.envelope, SettleTarget(a.command), Sent(a.command, p.envelope));
    }
  }

  lemma ExclusiveStep(s: State, a: Action)
    requires Exclusive(s) && Calm(s, a)
    ensures Exclusive(Apply(s, a))
  {
    ConservedStep(s, a);
    if Allowed(s, a) {
      var p := ProcOf(s, a.pid);
      var s' := Apply(s, a);
      var q := Client(s, p, a.command, a.reply);
      forall pid | pid in s'.procs
        ensures HolderOk(s', s'.procs[pid])
      {
        MemberStep(s, a, pid);
      }
      forall x, y | x in s'.procs && y in s'.procs && x != y
        ensures Apart(s'.procs[x], s'.procs[y])
      {
        MoverApart(s, a, if x == a.pid then y else x);
      }
    }
  }

  lemma MemberStep(s: State, a: Action, pid: Pid)
    requires Exclusive(s) && Calm(s, a) && Allowed(s, a) && pid in Apply(s, a).procs
    requires Conserved(Apply(s, a))
    ensures HolderOk(Apply(s, a), Apply(s, a).procs[pid])
  {
    var p := ProcOf(s, a.pid);
    var s' := Apply(s, a);
    var h := s'.procs[pid];
    if h.Holding? {
      if pid == a.pid && a.command.Claim? && p.Idle? {
        NewHolder(s, s', h);
      } else if a.reply != LostBeforeApply {
        assert h == ProcOf(s, pid);
        assert Server(s, p, a.command).lists == s'.lists;
        ServerKeepsHolder(s, a, h);
      }
    }
  }

  lemma MoverApart(s: State, a: Action, other: Pid)
    requires Exclusive(s) && Calm(s, a) && Allowed(s, a) && other in s.procs && other != a.pid
    requires Conserved(Apply(s, a))
    ensures Apart(Apply(s, a).procs[a.pid], s.procs[other])
  {
    var p := ProcOf(s, a.pid);
    if a.command.Claim? && Apply(s, a).procs[a.pid].Holding? {
      NewHolder(s, Apply(s, a), Apply(s, a).procs[a.pid]);
    }
  }

  lemma {:induction false} CalmRunExclusive(actions: seq<Action>, n: nat)
    requires CalmRun(actions) && n <= |actions|
    ensures Exclusive(Run(actions, n))
  {
    hide Apply;
    hide Calm;
    RedisConserves(actions, n);
    if n > 0 {
      CalmRunExclusive(actions, n - 1);
      ExclusiveStep(Run(actions, n - 1), actions[n - 1]);
    }
  }

  /** If no release reports an error and no recovery runs beside a delivery, then no two processes
      hold the same bytes, so no settle finds another process's claim, whatever other replies are
      lost. ClaimCanBeStolen shows that one lost release reply is enough to break this. */
  lemma HoldersHaveOwnElements(s: State, a: Pid, b: Pid)
    requires CalmlyReachable(s) && a != b && ProcOf(s, a).Holding? && ProcOf(s, b).Holding?
    ensures ProcOf(s, a).element != ProcOf(s, b).element
  {
    var actions, n: nat :| n <= |actions| && CalmRun(actions) && s == Run(actions, n);
    CalmRunExclusive(actions, n);
    assert Apart(s.procs[a], s.procs[b]) && HolderOk(s, s.procs[a]) && HolderOk(s, s.procs[b]);
  }
}
