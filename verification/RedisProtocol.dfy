/** The Redis driver as a concurrent protocol. Each command or script is one atomic step at the
    server, and its reply may be lost: the caller then sees an error, whether or not the server
    applied the command. */
module RedisProtocol {
  import opened Messages
  import opened AbstractQueue
  import opened RedisLists
  import opened Conservation

  type Pid = nat

  datatype Proc = Idle | Discarding(element: Raw) | Holding(element: Raw, envelope: Envelope)

  datatype Reply = Arrives | LostAfterApply | LostBeforeApply

  datatype Command =
    | Publish(envelope: Envelope)
    | Intrude(text: nat)
    | Claim
    | Discard
    | Acknowledge
    | Retry
    | MoveToFailed
    | Release
    | RecoverBatch(batch: nat)
    | RepublishBatch(batch: nat)
    | Clear(stage: Stage)
    | Crash

  datatype Action = Action(pid: Pid, command: Command, reply: Reply)

  /** `published` and `live` are history: `live` holds the ids that were published and then
      neither acknowledged nor cleared. */
  datatype State = State(lists: Lists, procs: map<Pid, Proc>, published: set<nat>, live: set<nat>)

  function Initial(): State {
    State(Lists([], [], []), map[], {}, {})
  }

  function ProcOf(s: State, pid: Pid): Proc {
    if pid in s.procs then s.procs[pid] else Idle
  }

  /** The ids of the messages in a list. */
  function IdsIn(list: seq<Raw>): set<nat> {
    set x | x in list && x.Message? :: x.envelope.id
  }

  /** MOVE_IF_PRESENT out of the in-progress list. */
  function MovedIfPresent(lists: Lists, element: Raw, destination: Stage, replacement: Raw): Lists {
    if element in lists.inProgress then
      var removed := lists.(inProgress := RemoveFirst(lists.inProgress, element));
      removed.Put(destination, [replacement] + removed.Get(destination))
    else lists
  }

  /** The envelope that a settle sends. A release subtracts before it sends. */
  function Sent(command: Command, envelope: Envelope): Envelope {
    if command.Release? then envelope.TakeBackAttempt() else envelope
  }

  function SettleTarget(command: Command): Stage {
    if command.MoveToFailed? then Failed else Pending
  }

  /** What the server does with a command of a process in the given state. */
  function Server(s: State, p: Proc, command: Command): State {
    match command
    case Publish(envelope) =>
      s.(lists := s.lists.(pending := [Message(envelope)] + s.lists.pending),
         published := s.published + {envelope.id}, live := s.live + {envelope.id})
    case Intrude(text) => s.(lists := s.lists.(pending := [Malformed(text)] + s.lists.pending))
    case Claim =>
      if s.lists.pending == [] then s
      else s.(lists := Moved(s.lists, Pending, InProgress, Right, Left))
    case Discard =>
      if p.Discarding? then s.(lists := MovedIfPresent(s.lists, p.element, Failed, p.element)) else s
    case Acknowledge =>
      if p.Holding? && p.element in s.lists.inProgress then
        s.(lists := s.lists.(inProgress := RemoveFirst(s.lists.inProgress, p.element)),
           live := s.live - {p.envelope.id})
      else s
    case Retry | MoveToFailed | Release =>
      if p.Holding? then
        s.(lists := MovedIfPresent(s.lists, p.element, SettleTarget(command), Message(Sent(command, p.envelope))))
      else s
    case RecoverBatch(batch) => s.(lists := Moves(s.lists, InProgress, Pending, Left, Right, batch))
    case RepublishBatch(batch) => s.(lists := Moves(s.lists, Failed, Pending, Right, Left, batch))
    case Clear(stage) => s.(lists := s.lists.Put(stage, []), live := s.live - IdsIn(s.lists.Get(stage)))
    case Crash => s
  }

  /** What the process does next. After an error a settle keeps the envelope it sent. */
  function Client(s: State, p: Proc, command: Command, reply: Reply): Proc {
    match command
    case Claim =>
      if p.Idle? && reply.Arrives? && s.lists.pending != [] then
        var element := Peeked(s.lists.pending, Right);
        (match element
         case Message(envelope) => Holding(element, envelope.CountAttempt())
         case Malformed(_) => Discarding(element))
      else p
    case Discard => if p.Discarding? then Idle else p
    case Acknowledge => if p.Holding? && reply.Arrives? then Idle else p
    case Retry | MoveToFailed | Release =>
      if !p.Holding? then p
      else if reply.Arrives? then Idle
      else Holding(p.element, Sent(command, p.envelope))
    case Crash => Idle
    case _ => p
  }

  /** A publish uses a new id, and a process claims only when it holds nothing. */
  predicate Allowed(s: State, a: Action) {
    && (a.command.Publish? ==> a.command.envelope.id !in s.published)
    && (a.command.Claim? ==> ProcOf(s, a.pid).Idle?)
  }

  function Apply(s: State, a: Action): State {
    if !Allowed(s, a) then s
    else
      var p := ProcOf(s, a.pid);
      var s' := if a.reply.LostBeforeApply? then s else Server(s, p, a.command);
      s'.(procs := s.procs[a.pid := Client(s, p, a.command, a.reply)])
  }

  /** The state after the first `n` actions. */
  function Run(actions: seq<Action>, n: nat): State
    requires n <= |actions|
  {
    if n == 0 then Initial() else Apply(Run(actions, n - 1), actions[n - 1])
  }

  // ---------------------------------------------------------------- conservation

  function CountOf(lists: Lists, id: nat): nat {
    CountId(lists.pending, id) + CountId(lists.inProgress, id) + CountId(lists.failed, id)
  }

  ghost predicate HoldersOk(s: State) {
    forall pid | pid in s.procs ::
      match s.procs[pid]
      case Holding(element, envelope) => element.HasId(envelope.id)
      case Discarding(element) => element.Malformed?
      case Idle => true
  }

  ghost predicate Conserved(s: State) {
    && HoldersOk(s)
    && s.live <= s.published
    && forall id :: CountOf(s.lists, id) == if id in s.live then 1 else 0
  }

  lemma PushCount(list: seq<Raw>, x: Raw, id: nat)
    ensures CountId([x] + list, id) == IdOf(x, id) + CountId(list, id)
    ensures CountId(list + [x], id) == IdOf(x, id) + CountId(list, id)
  {
    CountAppend([x], list, id);
    CountAppend(list, [x], id);
    CountOne(x, id);
  }

  lemma {:induction false} RemoveFirstCount(list: seq<Raw>, x: Raw, id: nat)
    requires x in list
    ensures CountId(RemoveFirst(list, x), id) == CountId(list, id) - IdOf(x, id)
  {
    PopCount(list, id);
    if list[0] != x {
      RemoveFirstCount(list[1..], x, id);
      PushCount(RemoveFirst(list[1..], x), list[0], id);
    }
  }

  lemma MovedIfPresentCount(lists: Lists, x: Raw, destination: Stage, y: Raw, id: nat)
    requires IdOf(x, id) == IdOf(y, id)
    ensures CountOf(MovedIfPresent(lists, x, destination, y), id) == CountOf(lists, id)
  {
    if x in lists.inProgress {
      RemoveFirstCount(lists.inProgress, x, id);
      var removed := lists.(inProgress := RemoveFirst(lists.inProgress, x));
      PushCount(removed.Get(destination), y, id);
    }
  }

  lemma MovedCount(lists: Lists, source: Stage, destination: Stage, from: End, to: End, id: nat)
    requires source != destination && |lists.Get(source)| > 0
    ensures CountOf(Moved(lists, source, destination, from, to), id) == CountOf(lists, id)
  {
    var list := lists.Get(source);
    PopCount(list, id);
    PushCount(lists.Get(destination), Peeked(list, from), id);
  }

  lemma {:induction false} MovesCount(lists: Lists, source: Stage, destination: Stage, from: End, to: End, n: nat,
                                      id: nat)
    requires source != destination
    ensures CountOf(Moves(lists, source, destination, from, to, n), id) == CountOf(lists, id)
    decreases n
  {
    hide CountOf;
    if n > 0 && |lists.Get(source)| > 0 {
      MovedCount(lists, source, destination, from, to, id);
      MovesCount(Moved(lists, source, destination, from, to), source, destination, from, to, n - 1, id);
    }
  }

  lemma ClearedCount(s: State, stage: Stage, id: nat)
    requires Conserved(s)
    ensures CountOf(s.lists.Put(stage, []), id) == if id in s.live - IdsIn(s.lists.Get(stage)) then 1 else 0
  {
    var list := s.lists.Get(stage);
    if id in IdsIn(list) {
      var x :| x in list && x.HasId(id);
      CountMember(list, x, id);
    } else if CountId(list, id) > 0 {
      CountNone(list, id);
    }
  }

  /** An acknowledged element was the only one of its id. */
  lemma AcknowledgedCount(s: State, x: Raw, own: nat, id: nat)
    requires Conserved(s) && x in s.lists.inProgress && x.HasId(own)
    ensures var lists := s.lists.(inProgress := RemoveFirst(s.lists.inProgress, x));
            CountOf(lists, id) == if id in s.live - {own} then 1 else 0
  {
    RemoveFirstCount(s.lists.inProgress, x, id);
    CountMember(s.lists.inProgress, x, own);
    assert CountOf(s.lists, id) == if id in s.live then 1 else 0;
    assert IdOf(x, id) == if id == own then 1 else 0;
  }

  lemma ServerConserves(s: State, p: Proc, command: Command, id: nat)
    requires Conserved(s)
    requires p.Holding? ==> p.element.HasId(p.envelope.id)
    requires command.Publish? ==> command.envelope.id !in s.published
    ensures var s' := Server(s, p, command);
            && CountOf(s'.lists, id) == (if id in s'.live then 1 else 0)
            && s'.live <= s'.published
  {
    hide CountId;
    hide Moves;
    hide MovedIfPresent;
    hide RemoveFirst;
    match command {
      case Publish(envelope) => PushCount(s.lists.pending, Message(envelope), id);
      case Intrude(text) => PushCount(s.lists.pending, Malformed(text), id);
      case Claim =>
        if s.lists.pending != [] {
          MovedCount(s.lists, Pending, InProgress, Right, Left, id);
        }
      case Discard =>
        if p.Discarding? {
          MovedIfPresentCount(s.lists, p.element, Failed, p.element, id);
        }
      case Acknowledge =>
        if p.Holding? && p.element in s.lists.inProgress {
          AcknowledgedCount(s, p.element, p.envelope.id, id);
        }
      case Retry | MoveToFailed | Release =>
        if p.Holding? {
          MovedIfPresentCount(s.lists, p.element, SettleTarget(command), Message(Sent(command, p.envelope)), id);
        }
      case RecoverBatch(batch) => MovesCount(s.lists, InProgress, Pending, Left, Right, batch, id);
      case RepublishBatch(batch) => MovesCount(s.lists, Failed, Pending, Right, Left, batch, id);
      case Clear(stage) => ClearedCount(s, stage, id);
      case Crash =>
    }
  }

  lemma ConservedStep(s: State, a: Action)
    requires Conserved(s)
    ensures Conserved(Apply(s, a))
  {
    if Allowed(s, a) {
      var p := ProcOf(s, a.pid);
      var s' := Apply(s, a);
      forall id
        ensures CountOf(s'.lists, id) == if id in s'.live then 1 else 0
        ensures s'.live <= s'.published
      {
        ServerConserves(s, p, a.command, id);
      }
    }
  }

  /** In every run, whatever replies are lost and whatever is settled again, each id that was
      published and neither acknowledged nor cleared is in the three lists exactly once, and no
      other id is in them. */
  lemma {:induction false} RedisConserves(actions: seq<Action>, n: nat)
    requires n <= |actions|
    ensures Conserved(Run(actions, n))
  {
    if n == 0 {
      assert forall id :: CountOf(Initial().lists, id) == 0;
    } else {
      RedisConserves(actions, n - 1);
      ConservedStep(Run(actions, n - 1), actions[n - 1]);
    }
  }
}
