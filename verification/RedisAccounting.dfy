/** What a stored attempt count means on Redis, where a settle may be applied and still report an
    error. */
module RedisAccounting {
  import opened Messages
  import opened AbstractQueue
  import opened RedisLists
  import opened RedisProtocol
  import opened RedisExclusivity

  predicate Publishes(s: State, a: Action, id: nat) {
    Allowed(s, a) && a.command.Publish? && !a.reply.LostBeforeApply? && a.command.envelope.id == id
  }

  predicate Settles(command: Command) {
    command.Retry? || command.MoveToFailed? || command.Release?
  }

  /** The server applies a settle that moves the message. */
  predicate Replaces(s: State, a: Action, id: nat) {
    var p := ProcOf(s, a.pid);
    && Settles(a.command) && !a.reply.LostBeforeApply?
    && p.Holding? && p.envelope.id == id && p.element in s.lists.inProgress
  }

  /** The server applies a retry or a move to failed of the message. */
  predicate AppliesSettle(s: State, a: Action, id: nat) {
    Replaces(s, a, id) && !a.command.Release?
  }

  /** The attempts that the message was published with. */
  function Start(actions: seq<Action>, n: nat, id: nat): nat
    requires n <= |actions|
  {
    if n == 0 then 0
    else if Publishes(Run(actions, n - 1), actions[n - 1], id) then actions[n - 1].command.envelope.attempts
    else Start(actions, n - 1, id)
  }

  function AppliedSettles(actions: seq<Action>, n: nat, id: nat): nat
    requires n <= |actions|
  {
    if n == 0 then 0
    else AppliedSettles(actions, n - 1, id) + if AppliesSettle(Run(actions, n - 1), actions[n - 1], id) then 1 else 0
  }

  /** No message is stored that was not stored before. */
  ghost predicate Within(l: Lists, l': Lists) {
    forall y | Stored(l', y) && y.Message? :: Stored(l, y)
  }

  lemma MovedWithin(l: Lists, source: Stage, destination: Stage, from: End, to: End)
    requires source != destination && |l.Get(source)| > 0
    ensures Within(l, Moved(l, source, destination, from, to))
  {
  }

  lemma {:induction false} MovesWithin(l: Lists, source: Stage, destination: Stage, from: End, to: End, n: nat)
    requires source != destination
    ensures Within(l, Moves(l, source, destination, from, to, n))
    decreases n
  {
    hide Stored;
    hide Moved;
    hide Lists.Get;
    if n > 0 && |l.Get(source)| > 0 {
      MovedWithin(l, source, destination, from, to);
      MovesWithin(Moved(l, source, destination, from, to), source, destination, from, to, n - 1);
    }
  }

  lemma QuietServer(s: State, p: Proc, command: Command)
    requires !command.Publish? && !Settles(command)
    ensures Within(s.lists, Server(s, p, command).lists)
  {
    match command {
      case Intrude(_) =>
      case Claim =>
      case Discard =>
        if p.Discarding? {
          SettleStored(s.lists, p.element, Failed, p.element);
        }
      case Acknowledge =>
        if p.Holding? {
          RemoveFirstMembers(s.lists.inProgress, p.element);
        }
      case RecoverBatch(batch) => MovesWithin(s.lists, InProgress, Pending, Left, Right, batch);
      case RepublishBatch(batch) => MovesWithin(s.lists, Failed, Pending, Right, Left, batch);
      case Clear(stage) =>
      case Crash =>
    }
  }

  /** The envelope of an applied settle's element, which the settle replaces. */
  lemma SettledAlone(s: State, a: Action, e: Envelope)
    requires Exclusive(s) && Calm(s, a) && Conserved(Apply(s, a)) && Replaces(s, a, e.id)
    requires Stored(Apply(s, a).lists, Message(e))
    ensures var x := ProcOf(s, a.pid).element;
            && x.Message? && Stored(s.lists, x)
            && e == if a.command.Release? then x.envelope else x.envelope.CountAttempt()
  {
    var p := ProcOf(s, a.pid);
    assert HolderOk(s, p);
    StoredOnce(Apply(s, a), Message(e), Message(Sent(a.command, p.envelope)), e.id);
  }

  /** A message that is neither published nor settled by the action was stored before it. */
  lemma StoredBefore(s: State, a: Action, e: Envelope)
    requires Stored(Apply(s, a).lists, Message(e)) && !Publishes(s, a, e.id) && !Replaces(s, a, e.id)
    ensures Stored(s.lists, Message(e))
  {
    if Allowed(s, a) && !a.reply.LostBeforeApply? {
      var p := ProcOf(s, a.pid);
      if a.command.Publish? {
      } else if Settles(a.command) {
        if p.Holding? {
          SettleStored(s.lists, p.element, SettleTarget(a.command), Message(Sent(a.command, p.envelope)));
        }
      } else {
        QuietServer(s, p, a.command);
      }
    }
  }

  lemma PublishedAlone(s: State, a: Action, e: Envelope)
    requires Conserved(Apply(s, a)) && Publishes(s, a, e.id) && Stored(Apply(s, a).lists, Message(e))
    ensures e == a.command.envelope
  {
    StoredOnce(Apply(s, a), Message(e), Message(a.command.envelope), e.id);
  }

  lemma NoSettleHere(s: State, a: Action, id: nat)
    requires Publishes(s, a, id)
    ensures !AppliesSettle(s, a, id)
  {
  }

  lemma PublishedGrows(s: State, a: Action)
    ensures s.published <= Apply(s, a).published
  {
  }

  lemma {:induction false} NoSettleYet(actions: seq<Action>, n: nat, id: nat)
    requires CalmRun(actions) && n <= |actions| && id !in Run(actions, n).published
    ensures AppliedSettles(actions, n, id) == 0
  {
    hide Calm;
    hide Conserved;
    hide Apply;
    if n > 0 {
      var s, a := Run(actions, n - 1), actions[n - 1];
      CalmRunExclusive(actions, n - 1);
      PublishedGrows(s, a);
      NoSettleYet(actions, n - 1, id);
      assert HolderOk(s, ProcOf(s, a.pid));
    }
  }

  /** The stored message that a stored message was before the action. */
  lemma Predecessor(s: State, a: Action, e: Envelope) returns (before: Envelope)
    requires Exclusive(s) && Calm(s, a) && Conserved(Apply(s, a))
    requires !Publishes(s, a, e.id) && Stored(Apply(s, a).lists, Message(e))
    ensures before.id == e.id && Stored(s.lists, Message(before))
    ensures e.attempts == before.attempts + if AppliesSettle(s, a, e.id) then 1 else 0
  {
    hide Calm;
    hide Conserved;
    hide Apply;
    hide Stored;
    var p := ProcOf(s, a.pid);
    assert HolderOk(s, p);
    if Replaces(s, a, e.id) {
      SettledAlone(s, a, e);
      before := p.element.envelope;
    } else {
      StoredBefore(s, a, e);
      before := e;
    }
  }

  /** In calm runs, a stored message counts the attempts it was published with and one for each
      retry and move to failed that the server applied, whatever replies are lost and however
      often a settle is repeated. */
  lemma {:induction false} AppliedSettlesCount(actions: seq<Action>, n: nat, e: Envelope)
    requires CalmRun(actions) && n <= |actions| && Stored(Run(actions, n).lists, Message(e))
    ensures e.attempts == Start(actions, n, e.id) + AppliedSettles(actions, n, e.id)
  {
    hide Exclusive;
    hide Calm;
    hide AppliesSettle;
    if n > 0 {
      var s, a := Run(actions, n - 1), actions[n - 1];
      CalmRunExclusive(actions, n - 1);
      RedisConserves(actions, n);
      if Publishes(s, a, e.id) {
        PublishedAlone(s, a, e);
        NoSettleYet(actions, n - 1, e.id);
        NoSettleHere(s, a, e.id);
      } else {
        var before := Predecessor(s, a, e);
        AppliedSettlesCount(actions, n - 1, before);
      }
    }
  }
}
