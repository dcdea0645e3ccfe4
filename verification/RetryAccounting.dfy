/** What a message's stored attempt count means, over any run of one lane. */
module RetryAccounting {
  import opened Integers
  import opened Messages
  import opened AbstractQueue
  import opened Conservation
  import Q = QueueCalls
  import opened RetryPolicy

  /** The history of one message: the attempts it was published with, its attempts that ended
      CommandFailed or Unrunnable, how many of these a completed settle stored, how many ended
      without one, its releases that were interrupted, and its republishes. */
  datatype Ledger = Ledger(start: nat, maxRetries: nat, ended: nat, stored: nat, unstored: nat,
                           interrupted: nat, republished: nat)

  /** `noted` says of each delivery held how its attempt ended, once a settle of it was tried. */
  datatype State = State(sys: Q.System, noted: seq<Option<AttemptKind>>, ledger: map<nat, Ledger>)

  /** What happens to a lane. `Settle` is a settle that completes, and `Interrupt` one that fails
      before it changes the lane. Both name how the attempt ended, which the first of them settles.
      `Abandon` is a consumer that gives a delivery up or stops with it. */
  datatype Action =
    | Publish(envelope: Envelope)
    | Intrude(text: nat)
    | Dequeue
    | Settle(k: nat, kind: AttemptKind)
    | Interrupt(k: nat, kind: AttemptKind)
    | Abandon(k: nat)
    | Recover
    | Republish(limit: nat)
    | Clear(stage: Stage)

  function CallFor(action: SettleAction, k: nat): Q.Call {
    match action
    case Acknowledge => Q.Acknowledge(k)
    case Retry => Q.Retry(k)
    case MoveToFailed => Q.MoveToFailed(k)
    case Release => Q.Release(k)
  }

  /** The envelope that a settle stores. */
  function Sent(e: Envelope, kind: AttemptKind): Envelope {
    if kind == Interrupted then e.TakeBackAttempt() else e
  }

  predicate Counts(kind: AttemptKind) {
    kind == CommandFailed || kind == Unrunnable
  }

  predicate Fails(noted: Option<AttemptKind>) {
    noted.Some? && Counts(noted.value)
  }

  /** A repeated settle is for the attempt that the first one was for. */
  function Effective(noted: Option<AttemptKind>, kind: AttemptKind): AttemptKind {
    if noted.Some? then noted.value else kind
  }

  /** The attempt ends with the first settle that is tried. */
  function EndAttempt(l: Ledger, noted: Option<AttemptKind>, kind: AttemptKind): Ledger {
    if noted == None && Counts(kind) then l.(ended := l.ended + 1) else l
  }

  /** A delivery whose failed attempt no settle will store any more. */
  function GiveUp(l: Ledger, noted: Option<AttemptKind>): Ledger {
    if Fails(noted) then l.(unstored := l.unstored + 1) else l
  }

  /** A settle that completes stores the attempt, or finds the message lost. */
  function Charge(l: Ledger, noted: Option<AttemptKind>, kind: AttemptKind, reply: Q.Reply): Ledger {
    var l' := EndAttempt(l, noted, kind);
    if reply != Q.Settled then GiveUp(l', Some(kind))
    else if Counts(kind) then l'.(stored := l'.stored + 1)
    else l'
  }

  function ChargeInterrupt(l: Ledger, noted: Option<AttemptKind>, kind: AttemptKind): Ledger {
    var l' := EndAttempt(l, noted, kind);
    if kind == Interrupted then l'.(interrupted := l'.interrupted + 1) else l'
  }

  function Enter(ledger: map<nat, Ledger>, id: nat, l: Ledger): map<nat, Ledger> {
    if id in ledger then ledger[id := l] else ledger
  }

  function Of(ledger: map<nat, Ledger>, id: nat): Ledger {
    if id in ledger then ledger[id] else Ledger(0, 0, 0, 0, 0, 0, 0)
  }

  /** A failed attempt of the message waits for a repeated settle. */
  predicate InHand(s: State, id: nat) {
    exists k | 0 <= k < |s.sys.held| && k < |s.noted| :: s.sys.held[k].envelope.id == id && Fails(s.noted[k])
  }

  /** A recovery ends every delivery. */
  function GiveUpAll(s: State): map<nat, Ledger> {
    map id | id in s.ledger ::
      if InHand(s, id) then s.ledger[id].(unstored := s.ledger[id].unstored + 1) else s.ledger[id]
  }

  function ChargeRepublish(ledger: map<nat, Ledger>, moved: seq<Raw>): map<nat, Ledger> {
    map id | id in ledger :: ledger[id].(republished := ledger[id].republished + CountId(moved, id))
  }

  /** An interrupted settle hands back the envelope it tried to store. */
  function HandedBack(h: Q.Held, kind: AttemptKind): Q.Held {
    if ForAttempt(kind, h.envelope) == Release then h.(envelope := h.envelope.TakeBackAttempt()) else h
  }

  predicate Holds(s: State, k: nat) {
    k < |s.sys.held| && k < |s.noted|
  }

  function SettleStep(s: State, k: nat, kind: AttemptKind): State
    requires Holds(s, k)
  {
    var h := s.sys.held[k];
    var (sys, reply) := Q.Step(s.sys, CallFor(ForAttempt(kind, h.envelope), k));
    State(sys, Q.Drop(s.noted, k),
          Enter(s.ledger, h.envelope.id, Charge(Of(s.ledger, h.envelope.id), s.noted[k], kind, reply)))
  }

  function InterruptStep(s: State, k: nat, kind: AttemptKind): State
    requires Holds(s, k)
  {
    var h := s.sys.held[k];
    State(s.sys.(held := s.sys.held[k := HandedBack(h, kind)]), s.noted[k := Some(kind)],
          Enter(s.ledger, h.envelope.id, ChargeInterrupt(Of(s.ledger, h.envelope.id), s.noted[k], kind)))
  }

  function AbandonStep(s: State, k: nat): State
    requires Holds(s, k)
  {
    var id := s.sys.held[k].envelope.id;
    State(s.sys.(held := Q.Drop(s.sys.held, k)), Q.Drop(s.noted, k),
          Enter(s.ledger, id, GiveUp(Of(s.ledger, id), s.noted[k])))
  }

  function Step(s: State, a: Action): State {
    match a
    case Publish(e) =>
      s.(sys := Q.Step(s.sys, Q.Publish(e)).0,
         ledger := s.ledger[e.id := Ledger(e.attempts, e.maxRetries, 0, 0, 0, 0, 0)])
    case Intrude(text) => s.(sys := Q.Step(s.sys, Q.Intrude(text)).0)
    case Dequeue =>
      s.(sys := Q.Step(s.sys, Q.Dequeue).0, noted := s.noted + if s.sys.queue.Claim().1.Some? then [None] else [])
    case Settle(k, kind) => if Holds(s, k) then SettleStep(s, k, Effective(s.noted[k], kind)) else s
    case Interrupt(k, kind) => if Holds(s, k) then InterruptStep(s, k, Effective(s.noted[k], kind)) else s
    case Abandon(k) => if Holds(s, k) then AbandonStep(s, k) else s
    case Recover => State(Q.Step(s.sys, Q.Recover).0, [], GiveUpAll(s))
    case Republish(limit) =>
      s.(sys := Q.Step(s.sys, Q.Republish(limit)).0,
         ledger := ChargeRepublish(s.ledger, s.sys.queue.failed[..Min(limit, |s.sys.queue.failed|)]))
    case Clear(stage) => s.(sys := Q.Step(s.sys, Q.Clear(stage)).0)
  }

  /** A publish uses a new id, and a claim does not wrap the count. */
  predicate Regular(s: State, a: Action) {
    && (a.Publish? ==> a.envelope.id !in s.sys.published)
    && (a.Dequeue? && s.sys.queue.Claim().1.Some? ==> s.sys.queue.Claim().1.value.attempts < U32_MAX)
  }

  /** The state after the first `n` actions. An action that is not regular does not happen. */
  function Run(actions: seq<Action>, n: nat): State
    requires n <= |actions|
  {
    if n == 0 then State(Q.EMPTY, [], map[])
    else
      var s := Run(actions, n - 1);
      if Regular(s, actions[n - 1]) then Step(s, actions[n - 1]) else s
  }

  /** Some run ends in this state. */
  ghost predicate Reachable(s: State) {
    exists actions, n: nat | n <= |actions| :: s == Run(actions, n)
  }

  /** The action is about a delivery of this message. */
  predicate About(s: State, a: Action, id: nat) {
    (a.Settle? || a.Interrupt? || a.Abandon?) && Holds(s, a.k) && s.sys.held[a.k].envelope.id == id
  }

  /** A message that the action is not about. */
  ghost predicate OtherLedger(s: State, a: Action, l: Ledger, l': Ledger, id: nat) {
    && l'.ended == l.ended && l'.stored == l.stored && l'.interrupted == l.interrupted
    && l'.unstored == l.unstored + if a.Recover? && InHand(s, id) then 1 else 0
  }

  /** The message that the action is about. */
  ghost predicate OwnLedger(s: State, a: Action, l: Ledger, l': Ledger)
    requires (a.Settle? || a.Interrupt? || a.Abandon?) && Holds(s, a.k)
  {
    var first := s.noted[a.k] == None;
    var fails := if first then !a.Abandon? && Counts(a.kind) else Counts(s.noted[a.k].value);
    var found := a.Settle? && s.sys.held[a.k].element in s.sys.queue.inProgress;
    && l'.ended == l.ended + (if first && fails then 1 else 0)
    && l'.stored == l.stored + (if fails && found then 1 else 0)
    && l'.unstored == l.unstored + (if fails && !found && !a.Interrupt? then 1 else 0)
    && l'.interrupted == l.interrupted
         + if a.Interrupt? && (if first then a.kind else s.noted[a.k].value) == Interrupted then 1 else 0
  }

  /** What one action adds to the ledger of a published message. An attempt that fails ends once, with
      its first settle. It is stored by a settle that finds the message, and lost with a settle that
      does not, or with its delivery. */
  lemma LedgerStep(s: State, a: Action, id: nat)
    requires id in s.ledger && (a.Publish? ==> a.envelope.id != id)
    ensures id in Step(s, a).ledger
            && var l, l' := s.ledger[id], Step(s, a).ledger[id];
               && l'.start == l.start && l'.maxRetries == l.maxRetries
               && l'.republished == l.republished + (if a.Republish? then CountId(s.sys.queue.failed, id)
                                                       - CountId(Step(s, a).sys.queue.failed, id) else 0)
               && if About(s, a, id) then OwnLedger(s, a, l, l') else OtherLedger(s, a, l, l', id)
  {
    hide InHand;
    hide CountId;
    if About(s, a, id) {
      OwnLedgerStep(s, a);
    } else if a.Republish? {
      var failed := s.sys.queue.failed;
      var n := Min(a.limit, |failed|);
      assert failed == failed[..n] + failed[n..];
      CountAppend(failed[..n], failed[n..], id);
    }
  }

  lemma OwnLedgerStep(s: State, a: Action)
    requires (a.Settle? || a.Interrupt? || a.Abandon?) && Holds(s, a.k) && s.sys.held[a.k].envelope.id in s.ledger
    ensures var id := s.sys.held[a.k].envelope.id;
            id in Step(s, a).ledger && OwnLedger(s, a, s.ledger[id], Step(s, a).ledger[id])
  {
  }

  // ---------------------------------------------------------------- invariant

  predicate Waiting(q: Queue, x: Raw) {
    x in q.pending || x in q.inProgress
  }

  /** A stored message counts its stored failures, less at most one for each interrupted release. */
  predicate Fits(l: Ledger, e: Envelope) {
    l.maxRetries == e.maxRetries && l.start + l.stored - l.interrupted <= e.attempts <= l.start + l.stored
  }

  /** Without another failure, the message can fail once more. */
  predicate CanFail(l: Ledger) {
    l.stored <= l.maxRetries + l.republished + l.interrupted
  }

  predicate Capped(l: Ledger) {
    l.stored <= l.maxRetries + 1 + l.republished + l.interrupted
  }

  ghost predicate StoredOk(s: State) {
    forall e: Envelope ::
      && (Waiting(s.sys.queue, Message(e)) ==> e.id in s.ledger && Fits(s.ledger[e.id], e) && CanFail(s.ledger[e.id]))
      && (Message(e) in s.sys.queue.failed ==> e.id in s.ledger && Fits(s.ledger[e.id], e))
  }

  /** A delivery counts one attempt more than its stored message, which can fail once more. */
  ghost predicate DeliveryOk(s: State, h: Q.Held) {
    var e := h.envelope;
    && e.id in s.ledger
    && var l := s.ledger[e.id];
       && CanFail(l)
       && (h.element in s.sys.queue.inProgress ==>
             && l.maxRetries == e.maxRetries
             && l.start + l.stored + 1 - l.interrupted <= e.attempts <= l.start + l.stored + 1)
  }

  /** Every failed attempt is stored, in hand, or ended without being stored. */
  ghost predicate Balanced(s: State) {
    && |s.noted| == |s.sys.held|
    && forall id | id in s.ledger ::
         s.ledger[id].ended == s.ledger[id].stored + s.ledger[id].unstored + if InHand(s, id) then 1 else 0
  }

  ghost predicate Accounted(s: State) {
    && Q.IdsOk(s.sys)
    && s.ledger.Keys == s.sys.published
    && (forall id | id in s.ledger :: Capped(s.ledger[id]))
    && StoredOk(s)
    && (forall k | 0 <= k < |s.sys.held| :: DeliveryOk(s, s.sys.held[k]))
  }

  /** The ledgers say the same about what is stored. */
  ghost predicate Agree(ledger: map<nat, Ledger>, ledger': map<nat, Ledger>) {
    && ledger'.Keys == ledger.Keys
    && forall id | id in ledger ::
         ledger'[id] == ledger[id].(ended := ledger'[id].ended, unstored := ledger'[id].unstored)
  }

  // ---------------------------------------------------------------- what each action keeps

  /** No message enters a stage. */
  ghost predicate Shrinks(q: Queue, q': Queue) {
    forall e: Envelope ::
      && (Waiting(q', Message(e)) ==> Waiting(q, Message(e)))
      && (Message(e) in q'.failed ==> Message(e) in q.failed)
  }

  lemma {:induction false} ClaimShrinks(q: Queue)
    ensures Shrinks(q, q.Claim().0)
    decreases |q.pending|
  {
    if q.pending != [] && q.pending[0].Malformed? {
      ClaimShrinks(Queue(q.pending[1..], q.inProgress, q.failed + [q.pending[0]]));
    }
  }

  lemma TakenShrinks(q: Queue, x: Raw)
    ensures Shrinks(q, q.Acknowledge(x).0)
    ensures forall y | y in q.Acknowledge(x).0.inProgress :: y in q.inProgress
  {
    if x in q.inProgress {
      var a, b := NewestSplit(q.inProgress, x);
    }
  }

  /** An action that takes no message out of one stage into another, and no delivery up. */
  lemma ShrinkOk(s: State, s': State)
    requires Accounted(s) && Q.IdsOk(s'.sys) && Agree(s.ledger, s'.ledger) && s'.sys.published == s.sys.published
    requires Shrinks(s.sys.queue, s'.sys.queue)
    requires forall h | h in s'.sys.held ::
               h in s.sys.held && (h.element in s'.sys.queue.inProgress ==> h.element in s.sys.queue.inProgress)
    ensures Accounted(s')
  {
    forall k | 0 <= k < |s'.sys.held| ensures DeliveryOk(s', s'.sys.held[k]) {
      var h := s'.sys.held[k];
      assert h in s'.sys.held;
      var j :| 0 <= j < |s.sys.held| && s.sys.held[j] == h;
      assert DeliveryOk(s, s.sys.held[j]);
    }
  }

  lemma PublishStored(s: State, e: Envelope)
    requires Accounted(s) && e.id !in s.sys.published
    ensures StoredOk(Step(s, Publish(e)))
  {
    var q, q' := s.sys.queue, Step(s, Publish(e)).sys.queue;
    forall x: Envelope
      ensures Waiting(q', Message(x)) ==> x == e || Waiting(q, Message(x))
      ensures Message(x) in q'.failed ==> Message(x) in q.failed
    {
    }
  }

  lemma PublishAccounted(s: State, e: Envelope)
    requires Accounted(s) && e.id !in s.sys.published
    ensures Accounted(Step(s, Publish(e)))
  {
    var s' := Step(s, Publish(e));
    Q.IdsStep(s.sys, Q.Publish(e));
    PublishStored(s, e);
    forall k | 0 <= k < |s'.sys.held| ensures DeliveryOk(s', s'.sys.held[k]) {
      assert DeliveryOk(s, s.sys.held[k]) && Q.HeldOk(s.sys, s.sys.held[k]);
    }
  }

  lemma DequeueAccounted(s: State)
    requires Accounted(s) && Regular(s, Dequeue)
    ensures Accounted(Step(s, Dequeue))
  {
    var s' := Step(s, Dequeue);
    Q.IdsStep(s.sys, Q.Dequeue);
    Q.ClaimTakes(s.sys.queue);
    ClaimShrinks(s.sys.queue);
    match s.sys.queue.Claim().1 {
      case None => ShrinkOk(s, s');
      case Some(e) =>
        assert Waiting(s.sys.queue, Message(e));
        forall k | 0 <= k < |s'.sys.held| ensures DeliveryOk(s', s'.sys.held[k]) {
          if k < |s.sys.held| {
            assert DeliveryOk(s, s.sys.held[k]) && Q.HeldOk(s.sys, s.sys.held[k]);
            Q.ClaimedIsNew(s.sys, e, k);
          }
        }
    }
  }

  /** A settle that moves the message leaves it in its target stage only. */
  lemma MovedStored(sys: Q.System, k: nat, envelope: Envelope, target: Stage)
    requires Q.IdsOk(sys) && k < |sys.held| && target != InProgress
    requires sys.held[k].element in sys.queue.inProgress && envelope.id == sys.held[k].envelope.id
    ensures var q, q' := sys.queue, sys.queue.MoveClaimed(sys.held[k].element, envelope, target).0;
            forall e: Envelope ::
              && (Waiting(q', Message(e)) ==>
                    (e == envelope && target == Pending) || (Waiting(q, Message(e)) && e.id != envelope.id))
              && (Message(e) in q'.failed ==>
                    (e == envelope && target == Failed) || (Message(e) in q.failed && e.id != envelope.id))
  {
    var x := sys.held[k].element;
    var taken := sys.queue.Acknowledge(x).0;
    assert Q.HeldOk(sys, sys.held[k]);
    TakenShrinks(sys.queue, x);
    AcknowledgeCount(sys.queue, x, envelope.id);
    assert Total(sys.queue, envelope.id) <= 1;
    forall e: Envelope | Waiting(taken, Message(e)) || Message(e) in taken.failed ensures e.id != envelope.id {
      Q.TotalMember(taken, Message(e), e.id);
    }
  }

  /** The other deliveries carry other ids, and lose nothing. */
  lemma OthersAccounted(s: State, k: nat, s': State)
    requires Accounted(s) && k < |s.sys.held| && s'.sys.held == Q.Drop(s.sys.held, k)
    requires s'.sys.queue.inProgress == s.sys.queue.Acknowledge(s.sys.held[k].element).0.inProgress
    requires forall id | id in s.ledger && id != s.sys.held[k].envelope.id ::
             id in s'.ledger && s'.ledger[id] == s.ledger[id]
    ensures forall i | 0 <= i < |s'.sys.held| :: DeliveryOk(s', s'.sys.held[i])
  {
    Q.DropOne(s.sys.held, k);
    TakenShrinks(s.sys.queue, s.sys.held[k].element);
    forall i | 0 <= i < |s'.sys.held| ensures DeliveryOk(s', s'.sys.held[i]) {
      var j := if i < k then i else i + 1;
      assert DeliveryOk(s, s.sys.held[j]);
    }
  }

  /** A completed settle that is not an acknowledge is one move of the sent envelope. */
  lemma SettleIsMove(s: State, k: nat, kind: AttemptKind)
    requires Holds(s, k) && kind != Succeeded && s.sys.held[k].element in s.sys.queue.inProgress
    ensures var h := s.sys.held[k];
            var target := if ForAttempt(kind, h.envelope) == MoveToFailed then Failed else Pending;
            && SettleStep(s, k, kind).sys == Q.Settle(s.sys, k, Sent(h.envelope, kind), target).0
            && SettleStep(s, k, kind).ledger
               == Enter(s.ledger, h.envelope.id, Charge(Of(s.ledger, h.envelope.id), s.noted[k], kind, Q.Settled))
  {
  }

  /** What the settled message and its ledger come to. */
  lemma SentFits(s: State, h: Q.Held, noted: Option<AttemptKind>, kind: AttemptKind)
    requires DeliveryOk(s, h) && kind != Succeeded && h.element in s.sys.queue.inProgress
    ensures var l := Charge(s.ledger[h.envelope.id], noted, kind, Q.Settled);
            && Fits(l, Sent(h.envelope, kind)) && Capped(l)
            && (ForAttempt(kind, h.envelope) != MoveToFailed ==> CanFail(l))
  {
  }

  lemma MoveAccounted(s: State, k: nat, kind: AttemptKind)
    requires Accounted(s) && Holds(s, k) && kind != Succeeded
    requires s.sys.held[k].element in s.sys.queue.inProgress
    ensures Accounted(SettleStep(s, k, kind))
  {
    var h, s' := s.sys.held[k], SettleStep(s, k, kind);
    assert DeliveryOk(s, h) && Q.HeldOk(s.sys, h);
    Q.IdsStep(s.sys, CallFor(ForAttempt(kind, h.envelope), k));
    OthersAccounted(s, k, s');
    MovedLedger(s, k, kind, s');
  }

  lemma MovedLedger(s: State, k: nat, kind: AttemptKind, s': State)
    requires Accounted(s) && Holds(s, k) && kind != Succeeded && s' == SettleStep(s, k, kind)
    requires s.sys.held[k].element in s.sys.queue.inProgress
    ensures StoredOk(s') && s'.ledger.Keys == s.ledger.Keys
    ensures forall id | id in s'.ledger :: Capped(s'.ledger[id])
  {
    var h := s.sys.held[k];
    assert DeliveryOk(s, h) && Q.HeldOk(s.sys, h);
    SettleIsMove(s, k, kind);
    SentFits(s, h, s.noted[k], kind);
    MovedStored(s.sys, k, Sent(h.envelope, kind),
                if ForAttempt(kind, h.envelope) == MoveToFailed then Failed else Pending);
  }

  lemma SettleAccounted(s: State, k: nat, kind: AttemptKind)
    requires Accounted(s) && Holds(s, k)
    ensures Accounted(SettleStep(s, k, kind))
  {
    if kind != Succeeded && s.sys.held[k].element in s.sys.queue.inProgress {
      MoveAccounted(s, k, kind);
    } else {
      GoneAccounted(s, k, kind);
    }
  }

  /** An acknowledged or lost message leaves the lane, or left it before. */
  lemma GoneStep(s: State, k: nat, kind: AttemptKind)
    requires Accounted(s) && Holds(s, k) && (kind == Succeeded || s.sys.held[k].element !in s.sys.queue.inProgress)
    ensures SettleStep(s, k, kind).sys
         == Q.System(s.sys.queue.Acknowledge(s.sys.held[k].element).0, Q.Drop(s.sys.held, k), s.sys.published)
    ensures Agree(s.ledger, SettleStep(s, k, kind).ledger)
  {
    hide Total;
    assert DeliveryOk(s, s.sys.held[k]);
  }

  lemma GoneAccounted(s: State, k: nat, kind: AttemptKind)
    requires Accounted(s) && Holds(s, k) && (kind == Succeeded || s.sys.held[k].element !in s.sys.queue.inProgress)
    ensures Accounted(SettleStep(s, k, kind))
  {
    hide SettleStep;
    var s' := SettleStep(s, k, kind);
    GoneStep(s, k, kind);
    Q.AcknowledgeIds(s.sys, k);
    TakenShrinks(s.sys.queue, s.sys.held[k].element);
    ShrinkOk(s, s');
  }

  lemma InterruptAccounted(s: State, k: nat, kind: AttemptKind)
    requires Accounted(s) && Holds(s, k)
    ensures Accounted(InterruptStep(s, k, kind))
  {
    hide Total;
    var s' := InterruptStep(s, k, kind);
    var id := s.sys.held[k].envelope.id;
    forall j | 0 <= j < |s'.sys.held| ensures DeliveryOk(s', s'.sys.held[j]) && Q.HeldOk(s'.sys, s'.sys.held[j]) {
      assert DeliveryOk(s, s.sys.held[j]) && Q.HeldOk(s.sys, s.sys.held[j]);
    }
    assert id in s.ledger && Capped(s.ledger[id]);
  }

  lemma AbandonAccounted(s: State, k: nat)
    requires Accounted(s) && Holds(s, k)
    ensures Accounted(AbandonStep(s, k))
  {
    var s' := AbandonStep(s, k);
    Q.DropOne(s.sys.held, k);
    assert Agree(s.ledger, s'.ledger);
    forall i | 0 <= i < |s'.sys.held| ensures DeliveryOk(s', s'.sys.held[i]) && Q.HeldOk(s'.sys, s'.sys.held[i]) {
      var j := if i < k then i else i + 1;
      assert DeliveryOk(s, s.sys.held[j]) && Q.HeldOk(s.sys, s.sys.held[j]);
    }
  }

  /** A republished message may fail once more. */
  lemma RepublishAccounted(s: State, limit: nat)
    requires Accounted(s)
    ensures Accounted(Step(s, Republish(limit)))
  {
    var s', q := Step(s, Republish(limit)), s.sys.queue;
    var n := Min(limit, |q.failed|);
    Q.IdsStep(s.sys, Q.Republish(limit));
    forall e: Envelope
      ensures Waiting(s'.sys.queue, Message(e)) ==>
                e.id in s'.ledger && Fits(s'.ledger[e.id], e) && CanFail(s'.ledger[e.id])
      ensures Message(e) in s'.sys.queue.failed ==> e.id in s'.ledger && Fits(s'.ledger[e.id], e)
    {
      if Message(e) in q.failed[..n] {
        CountMember(q.failed[..n], Message(e), e.id);
        assert Message(e) in q.failed;
        assert Capped(s.ledger[e.id]);
      }
      assert Waiting(s'.sys.queue, Message(e)) ==> Waiting(q, Message(e)) || Message(e) in q.failed[..n];
    }
    forall k | 0 <= k < |s'.sys.held| ensures DeliveryOk(s', s'.sys.held[k]) {
      assert DeliveryOk(s, s.sys.held[k]);
    }
    forall id | id in s'.ledger ensures Capped(s'.ledger[id]) {
      assert Capped(s.ledger[id]);
    }
  }

  lemma StepAccounted(s: State, a: Action)
    requires Accounted(s) && Regular(s, a)
    ensures Accounted(Step(s, a))
  {
    match a {
      case Publish(e) => PublishAccounted(s, e);
      case Intrude(text) =>
        Q.IdsStep(s.sys, Q.Intrude(text));
        ShrinkOk(s, Step(s, a));
      case Dequeue => DequeueAccounted(s);
      case Settle(k, kind) => if Holds(s, k) { SettleAccounted(s, k, Effective(s.noted[k], kind)); }
      case Interrupt(k, kind) => if Holds(s, k) { InterruptAccounted(s, k, Effective(s.noted[k], kind)); }
      case Abandon(k) => if Holds(s, k) { AbandonAccounted(s, k); }
      case Recover =>
        Q.IdsStep(s.sys, Q.Recover);
        ShrinkOk(s, Step(s, a));
      case Republish(limit) => RepublishAccounted(s, limit);
      case Clear(stage) =>
        Q.IdsStep(s.sys, Q.Clear(stage));
        ShrinkOk(s, Step(s, a));
    }
  }

  // ---------------------------------------------------------------- failed attempts in hand

  ghost predicate NotedAt(s: State, k: nat, id: nat) {
    Holds(s, k) && s.sys.held[k].envelope.id == id && Fails(s.noted[k])
  }

  lemma InHandAt(s: State, k: nat, id: nat)
    requires NotedAt(s, k, id)
    ensures InHand(s, id)
  {
  }

  /** The deliveries of other ids are unchanged. */
  lemma InHandSame(s: State, s': State, id: nat)
    requires forall k: nat | NotedAt(s, k, id) :: exists j: nat :: NotedAt(s', j, id)
    requires forall k: nat | NotedAt(s', k, id) :: exists j: nat :: NotedAt(s, j, id)
    ensures InHand(s', id) == InHand(s, id)
  {
    if InHand(s, id) {
      var k :| 0 <= k < |s.sys.held| && k < |s.noted| && s.sys.held[k].envelope.id == id && Fails(s.noted[k]);
      assert NotedAt(s, k, id);
      var j: nat :| NotedAt(s', j, id);
      InHandAt(s', j, id);
    }
    if InHand(s', id) {
      var k :| 0 <= k < |s'.sys.held| && k < |s'.noted| && s'.sys.held[k].envelope.id == id && Fails(s'.noted[k]);
      assert NotedAt(s', k, id);
      var j: nat :| NotedAt(s, j, id);
      InHandAt(s, j, id);
    }
  }

  /** Of the deliveries held, only delivery `k` carries its id. */
  lemma InHandOwn(s: State, k: nat)
    requires Q.IdsOk(s.sys) && Holds(s, k)
    ensures InHand(s, s.sys.held[k].envelope.id) <==> Fails(s.noted[k])
  {
    if Fails(s.noted[k]) {
      InHandAt(s, k, s.sys.held[k].envelope.id);
    }
  }

  lemma InHandDrop(s: State, k: nat, s': State, id: nat)
    requires Q.IdsOk(s.sys) && Holds(s, k) && |s.noted| == |s.sys.held|
    requires s'.sys.held == Q.Drop(s.sys.held, k) && s'.noted == Q.Drop(s.noted, k)
    ensures InHand(s', id) == (InHand(s, id) && id != s.sys.held[k].envelope.id)
  {
    Q.DropOne(s.sys.held, k);
    Q.DropOne(s.noted, k);
    if id != s.sys.held[k].envelope.id {
      forall i: nat | NotedAt(s, i, id) ensures exists j: nat :: NotedAt(s', j, id) {
        assert i != k;
        assert NotedAt(s', if i < k then i else i - 1, id);
      }
      forall i: nat | NotedAt(s', i, id) ensures exists j: nat :: NotedAt(s, j, id) {
        assert NotedAt(s, if i < k then i else i + 1, id);
      }
      InHandSame(s, s', id);
    }
  }

  lemma SettleBalanced(s: State, k: nat, kind: AttemptKind)
    requires Accounted(s) && Balanced(s) && Holds(s, k) && (s.noted[k].Some? ==> kind == s.noted[k].value)
    ensures Balanced(SettleStep(s, k, kind))
  {
    var s' := SettleStep(s, k, kind);
    InHandOwn(s, k);
    forall id | id in s'.ledger
      ensures s'.ledger[id].ended == s'.ledger[id].stored + s'.ledger[id].unstored + if InHand(s', id) then 1 else 0
    {
      InHandDrop(s, k, s', id);
    }
  }

  lemma AbandonBalanced(s: State, k: nat)
    requires Accounted(s) && Balanced(s) && Holds(s, k)
    ensures Balanced(AbandonStep(s, k))
  {
    var s' := AbandonStep(s, k);
    InHandOwn(s, k);
    forall id | id in s'.ledger
      ensures s'.ledger[id].ended == s'.ledger[id].stored + s'.ledger[id].unstored + if InHand(s', id) then 1 else 0
    {
      InHandDrop(s, k, s', id);
    }
  }

  lemma InterruptBalanced(s: State, k: nat, kind: AttemptKind)
    requires Accounted(s) && Balanced(s) && Holds(s, k) && (s.noted[k].Some? ==> kind == s.noted[k].value)
    requires Q.IdsOk(InterruptStep(s, k, kind).sys)
    ensures Balanced(InterruptStep(s, k, kind))
  {
    var s' := InterruptStep(s, k, kind);
    InHandOwn(s, k);
    InHandOwn(s', k);
    forall id | id in s'.ledger
      ensures s'.ledger[id].ended == s'.ledger[id].stored + s'.ledger[id].unstored + if InHand(s', id) then 1 else 0
    {
      if id != s.sys.held[k].envelope.id {
        forall i: nat ensures NotedAt(s, i, id) <==> NotedAt(s', i, id) {}
        InHandSame(s, s', id);
      }
    }
  }

  /** An action that leaves the deliveries alone, or adds one whose attempt has not ended. */
  lemma QuietBalanced(s: State, s': State)
    requires Accounted(s) && Balanced(s) && |s'.noted| == |s'.sys.held|
    requires s.noted <= s'.noted && s.sys.held <= s'.sys.held
    requires forall k | |s.noted| <= k < |s'.noted| :: s'.noted[k] == None
    requires forall id | id in s'.ledger ::
               if id in s.ledger then s'.ledger[id] == s.ledger[id].(republished := s'.ledger[id].republished)
               else s'.ledger[id].ended == s'.ledger[id].stored == s'.ledger[id].unstored == 0
    ensures Balanced(s')
  {
    forall id | id in s'.ledger
      ensures s'.ledger[id].ended == s'.ledger[id].stored + s'.ledger[id].unstored + if InHand(s', id) then 1 else 0
    {
      forall i: nat ensures NotedAt(s, i, id) <==> NotedAt(s', i, id) {}
      InHandSame(s, s', id);
      if InHand(s, id) {
        var k :| 0 <= k < |s.sys.held| && k < |s.noted| && s.sys.held[k].envelope.id == id && Fails(s.noted[k]);
        assert DeliveryOk(s, s.sys.held[k]);
      }
    }
  }

  lemma StepBalanced(s: State, a: Action)
    requires Accounted(s) && Balanced(s) && Regular(s, a) && Accounted(Step(s, a))
    ensures Balanced(Step(s, a))
  {
    match a {
      case Settle(k, kind) => if Holds(s, k) { SettleBalanced(s, k, Effective(s.noted[k], kind)); }
      case Interrupt(k, kind) => if Holds(s, k) { InterruptBalanced(s, k, Effective(s.noted[k], kind)); }
      case Abandon(k) => if Holds(s, k) { AbandonBalanced(s, k); }
      case Recover =>
      case Publish(e) => QuietBalanced(s, Step(s, a));
      case Intrude(text) => QuietBalanced(s, Step(s, a));
      case Dequeue => QuietBalanced(s, Step(s, a));
      case Republish(limit) => QuietBalanced(s, Step(s, a));
      case Clear(stage) => QuietBalanced(s, Step(s, a));
    }
  }

  lemma {:induction false} RunAccounted(actions: seq<Action>, n: nat)
    requires n <= |actions|
    ensures Accounted(Run(actions, n)) && Balanced(Run(actions, n))
  {
    hide Step;
    if n == 0 {
      assert forall id :: Total(Q.EMPTY.queue, id) == 0;
    } else {
      var s := Run(actions, n - 1);
      RunAccounted(actions, n - 1);
      if Regular(s, actions[n - 1]) {
        StepAccounted(s, actions[n - 1]);
        StepBalanced(s, actions[n - 1]);
      }
    }
  }

  lemma ReachableAccounted(s: State)
    requires Reachable(s)
    ensures Accounted(s) && Balanced(s)
  {
    hide Accounted;
    hide Balanced;
    var actions, n: nat :| n <= |actions| && s == Run(actions, n);
    RunAccounted(actions, n);
  }

  // ---------------------------------------------------------------- main results

  predicate Stored(q: Queue, x: Raw) {
    Waiting(q, x) || x in q.failed
  }

  /** A message that is not in progress has no delivery in hand. */
  lemma InHandInProgress(s: State, e: Envelope)
    requires Q.IdsOk(s.sys) && InHand(s, e.id) && Stored(s.sys.queue, Message(e))
    ensures Message(e) in s.sys.queue.inProgress
  {
    var k :| 0 <= k < |s.sys.held| && k < |s.noted| && s.sys.held[k].envelope.id == e.id && Fails(s.noted[k]);
    var h := s.sys.held[k];
    assert Q.HeldOk(s.sys, h) && Total(s.sys.queue, e.id) <= 1;
    Q.TotalMember(s.sys.queue, Message(e), e.id);
    Q.TotalMember(s.sys.queue, h.element, e.id);
  }

  function Waits(s: State, id: nat): nat {
    if InHand(s, id) then 1 else 0
  }

  /** The stored count of a message is the number of its attempts that ended CommandFailed or
      Unrunnable, on top of the count it was published with, less those that no settle stored:
      one that waits for a repeated settle, and those given up. Every interrupted release may make
      it one smaller, and nothing makes it larger. So, without one, the count is of all failed
      attempts exactly when none was given up and none waits, and only an in-progress message has
      one that waits. */
  lemma AttemptsCountFailures(s: State, e: Envelope)
    requires Reachable(s) && Stored(s.sys.queue, Message(e))
    ensures e.id in s.ledger
            && var l := s.ledger[e.id];
               var counted := l.start + l.ended - l.unstored - Waits(s, e.id);
               && counted - l.interrupted <= e.attempts <= counted
               && (l.interrupted == 0 ==>
                     (e.attempts == l.start + l.ended <==> l.unstored == 0 && !InHand(s, e.id)))
    ensures InHand(s, e.id) ==> Message(e) in s.sys.queue.inProgress
  {
    ReachableAccounted(s);
    if InHand(s, e.id) {
      InHandInProgress(s, e);
    }
  }

  /** A message that was republished r times ends at most maxRetries + 1 + r attempts without
      success, and one more for each interrupted release and for each failed attempt that no
      settle stored. */
  lemma UnsuccessfulAttemptsBounded(s: State, id: nat)
    requires Reachable(s) && id in s.ledger
    ensures var l := s.ledger[id];
            l.ended <= l.maxRetries + 1 + l.republished + l.interrupted + l.unstored
  {
    ReachableAccounted(s);
    assert Capped(s.ledger[id]);
    if InHand(s, id) {
      var k :| 0 <= k < |s.sys.held| && k < |s.noted| && s.sys.held[k].envelope.id == id && Fails(s.noted[k]);
      assert DeliveryOk(s, s.sys.held[k]);
    }
  }

  /** A completed settle of an in-progress message sends it to the end of failed when it is
      unrunnable or its count has passed maxRetries, and to the end of pending otherwise. The count
      is that of its failed attempts that are now stored. */
  ghost predicate SettledByCount(s: State, k: nat, kind: AttemptKind)
    requires Holds(s, k)
  {
    var e, q, s' := s.sys.held[k].envelope, s.sys.queue, SettleStep(s, k, kind);
    e.id in s'.ledger
    && var l := s'.ledger[e.id];
       var count := l.start + l.ended - l.unstored;
       var target := if kind == Unrunnable || (kind == CommandFailed && count > l.maxRetries) then Failed else Pending;
       && s'.sys.queue.Get(target) == q.Get(target) + [Message(Sent(e, kind))]
       && Sent(e, kind).attempts == count
  }

  ghost predicate Uninterrupted(s: State, id: nat) {
    id in s.ledger ==> s.ledger[id].interrupted == 0
  }

  lemma AccountedSettle(s: State, k: nat, kind: AttemptKind)
    requires Accounted(s) && Balanced(s) && Holds(s, k) && kind != Succeeded && kind == Effective(s.noted[k], kind)
    requires s.sys.held[k].element in s.sys.queue.inProgress && Uninterrupted(s, s.sys.held[k].envelope.id)
    ensures SettledByCount(s, k, kind)
  {
    assert DeliveryOk(s, s.sys.held[k]);
    InHandOwn(s, k);
  }

  /** A failed run moves its message to failed exactly when it is the (maxRetries + 1)-th that is
      stored, or a later one. An unrunnable message goes to failed at once, and a released one
      back to pending with the count it had. */
  lemma SettlesByCount(s: State, k: nat, kind: AttemptKind)
    requires Reachable(s) && Holds(s, k) && kind != Succeeded && kind == Effective(s.noted[k], kind)
    requires s.sys.held[k].element in s.sys.queue.inProgress && Uninterrupted(s, s.sys.held[k].envelope.id)
    ensures SettledByCount(s, k, kind)
  {
    hide SettleStep;
    ReachableAccounted(s);
    AccountedSettle(s, k, kind);
  }

  // ---------------------------------------------------------------- settles that are given up

  /** A command fails, its settle is interrupted, the consumer gives up because it is stopping, and
      the lane is recovered. */
  const CYCLE := [Dequeue, Interrupt(0, CommandFailed), Abandon(0), Recover]

  function Cycles(e: Envelope, n: nat): seq<Action> {
    if n == 0 then [Publish(e)] else Cycles(e, n - 1) + CYCLE
  }

  lemma {:induction false} RunPrefix(a: seq<Action>, b: seq<Action>, n: nat)
    requires n <= |a|
    ensures Run(a + b, n) == Run(a, n)
  {
    if n > 0 {
      RunPrefix(a, b, n - 1);
    }
  }

  /** The lane of one message after `n` such cycles. */
  function Cycled(e: Envelope, n: nat): State {
    State(Q.System(Queue([Message(e)], [], []), [], {e.id}), [],
          map[e.id := Ledger(e.attempts, e.maxRetries, n, 0, n, 0, 0)])
  }

  /** Four regular actions happen one after the other. */
  lemma FourSteps(actions: seq<Action>, m: nat, s0: State, s1: State, s2: State, s3: State, s4: State)
    requires m + 4 <= |actions| && Run(actions, m) == s0
    requires Regular(s0, actions[m]) && Step(s0, actions[m]) == s1
    requires Regular(s1, actions[m + 1]) && Step(s1, actions[m + 1]) == s2
    requires Regular(s2, actions[m + 2]) && Step(s2, actions[m + 2]) == s3
    requires Regular(s3, actions[m + 3]) && Step(s3, actions[m + 3]) == s4
    ensures Run(actions, m + 4) == s4
  {
    hide Step;
    hide Regular;
    assert Run(actions, m + 1) == s1;
    assert Run(actions, m + 2) == s2;
    assert Run(actions, m + 3) == s3;
  }

  /** The only delivery of one message in progress, after `n` given-up and `ended` failed attempts. */
  function Running(e: Envelope, noted: Option<AttemptKind>, ended: nat, n: nat): State {
    State(Q.System(Queue([], [Message(e)], []), [Q.Held(Message(e), e.CountAttempt())], {e.id}), [noted],
          map[e.id := Ledger(e.attempts, e.maxRetries, ended, 0, n, 0, 0)])
  }

  function GivenUp(e: Envelope, n: nat): State {
    State(Q.System(Queue([], [Message(e)], []), [], {e.id}), [], Cycled(e, n).ledger)
  }

  lemma CycleClaims(e: Envelope, n: nat)
    requires e.attempts < U32_MAX
    ensures Regular(Cycled(e, n), Dequeue) && Step(Cycled(e, n), Dequeue) == Running(e, None, n, n)
  {
  }

  lemma CycleFails(e: Envelope, n: nat)
    ensures Step(Running(e, None, n, n), Interrupt(0, CommandFailed)) == Running(e, Some(CommandFailed), n + 1, n)
  {
    assert InterruptStep(Running(e, None, n, n), 0, CommandFailed) == Running(e, Some(CommandFailed), n + 1, n);
  }

  lemma CycleGivesUp(e: Envelope, n: nat)
    ensures Step(Running(e, Some(CommandFailed), n + 1, n), Abandon(0)) == GivenUp(e, n + 1)
  {
    assert AbandonStep(Running(e, Some(CommandFailed), n + 1, n), 0) == GivenUp(e, n + 1);
  }

  lemma CycleRecovers(e: Envelope, n: nat)
    ensures Step(GivenUp(e, n), Recover) == Cycled(e, n)
  {
  }

  lemma {:induction false} OneCycle(e: Envelope, n: nat, front: seq<Action>)
    requires e.attempts < U32_MAX && Run(front, |front|) == Cycled(e, n)
    ensures Run(front + CYCLE, |front| + 4) == Cycled(e, n + 1)
  {
    hide Step;
    hide Run;
    hide Cycled;
    hide Running;
    hide GivenUp;
    RunPrefix(front, CYCLE, |front|);
    CycleClaims(e, n);
    CycleFails(e, n);
    CycleGivesUp(e, n);
    CycleRecovers(e, n + 1);
    FourSteps(front + CYCLE, |front|, Cycled(e, n), Running(e, None, n, n), Running(e, Some(CommandFailed), n + 1, n),
              GivenUp(e, n + 1), Cycled(e, n + 1));
  }

  lemma {:induction false} RunCycles(e: Envelope, n: nat)
    requires e.attempts < U32_MAX
    ensures Run(Cycles(e, n), |Cycles(e, n)|) == Cycled(e, n)
  {
    hide Run;
    hide Cycled;
    if n == 0 {
      FirstPublish(e);
    } else {
      RunCycles(e, n - 1);
      OneCycle(e, n - 1, Cycles(e, n - 1));
    }
  }

  lemma FirstPublish(e: Envelope)
    ensures Run([Publish(e)], 1) == Cycled(e, 0)
  {
    var a := [Publish(e)];
    assert Run(a, 0) == State(Q.EMPTY, [], map[]);
    assert Run(a, 1) == Step(Run(a, 0), Publish(e));
  }

  /** Failed attempts whose settle is given up are not bounded: after `n` cycles the message is
      pending as it was published, and `n` attempts have failed. */
  lemma GivenUpFailuresGoOn(e: Envelope, n: nat)
    requires e.attempts < U32_MAX
    ensures Reachable(Cycled(e, n))
  {
    hide Run;
    hide Cycled;
    RunCycles(e, n);
  }
}
