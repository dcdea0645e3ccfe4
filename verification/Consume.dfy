/** `queue consume` (messaging.rs): runs pending messages of one lane until a limit or until none
    is left. */
module Consume {
  import opened Integers
  import opened Messages
  import opened AbstractQueue
  import opened Conservation
  import opened RetryPolicy
  import opened QueueHandle

  // ---------------------------------------------------------------- how long it can run

  /** How often a pending message can be claimed if it always fails. Malformed elements are not
      counted. A count that would wrap starts again from 0. */
  function Claims(x: Raw): nat {
    match x
    case Malformed(_) => 0
    case Message(e) =>
      if e.attempts == U32_MAX then e.maxRetries + 2
      else if e.attempts < e.maxRetries then e.maxRetries + 1 - e.attempts
      else 1
  }

  function Work(s: seq<Raw>): nat {
    if s == [] then 0 else Claims(s[0]) + Work(s[1..])
  }

  function MessageCount(s: seq<Raw>): nat {
    if s == [] then 0 else (if s[0].Message? then 1 else 0) + MessageCount(s[1..])
  }

  lemma {:induction false} SumsAppend(a: seq<Raw>, x: Raw)
    ensures Work(a + [x]) == Work(a) + Claims(x)
    ensures MessageCount(a + [x]) == MessageCount(a) + if x.Message? then 1 else 0
  {
    if a == [] {
      assert a + [x] == [x];
    } else {
      assert (a + [x])[1..] == a[1..] + [x];
      SumsAppend(a[1..], x);
    }
  }

  /** What a claim takes out of pending. */
  lemma {:induction false} ClaimSums(q: Queue)
    ensures var (q', claimed) := q.Claim();
            match claimed
            case None =>
              q'.pending == [] && q'.inProgress == q.inProgress && Work(q.pending) == 0 && MessageCount(q.pending) == 0
            case Some(e) =>
              && Message(e) in q.pending && q'.inProgress == q.inProgress + [Message(e)]
              && Work(q.pending) == Claims(Message(e)) + Work(q'.pending)
              && MessageCount(q.pending) == 1 + MessageCount(q'.pending)
              && forall x | x in q'.pending :: x in q.pending
    ensures q.failed <= q.Claim().0.failed
    decreases |q.pending|
  {
    if q.pending != [] && q.pending[0].Malformed? {
      ClaimSums(Queue(q.pending[1..], q.inProgress, q.failed + [q.pending[0]]));
    }
  }

  /** A retry leaves one claim less. Only a message with the largest maxRetries never runs out. */
  lemma RetryLeavesLess(e: Envelope)
    requires e.maxRetries < U32_MAX
    ensures var counted := e.CountAttempt();
            if ForAttempt(CommandFailed, counted) == Retry
            then Claims(Message(counted)) + 1 == Claims(Message(e)) else Claims(Message(e)) == 1
  {
  }

  function Counted(e: Envelope, n: nat): Envelope {
    if n == 0 then e else Counted(e, n - 1).CountAttempt()
  }

  lemma {:induction false} CountedAttempts(e: Envelope, n: nat)
    requires e.attempts + n <= U32_MAX
    ensures Counted(e, n) == e.(attempts := e.attempts + n)
  {
    if n > 0 {
      CountedAttempts(e, n - 1);
    }
  }

  lemma {:induction false} CountedKeepsLimit(e: Envelope, n: nat)
    ensures Counted(e, n).maxRetries == e.maxRetries
  {
    if n > 0 {
      CountedKeepsLimit(e, n - 1);
    }
  }

  /** A message that fails every time reaches the failed stage, unless its limit is the largest
      number that the count can hold. */
  lemma FailingMessageEnds(e: Envelope)
    ensures (exists n: nat :: n > 0 && ForAttempt(CommandFailed, Counted(e, n)) == MoveToFailed)
         <==> e.maxRetries < U32_MAX
  {
    if e.maxRetries < U32_MAX {
      if e.attempts < U32_MAX {
        CountedAttempts(e, U32_MAX - e.attempts);
        assert ForAttempt(CommandFailed, Counted(e, U32_MAX - e.attempts)) == MoveToFailed;
      } else {
        var wrapped := e.CountAttempt();
        CountedFromWrap(e, U32_MAX);
        CountedAttempts(wrapped, U32_MAX);
        assert ForAttempt(CommandFailed, Counted(e, U32_MAX + 1)) == MoveToFailed;
      }
    } else {
      forall n: nat ensures ForAttempt(CommandFailed, Counted(e, n)) == Retry {
        CountedKeepsLimit(e, n);
      }
    }
  }

  lemma {:induction false} CountedFromWrap(e: Envelope, n: nat)
    ensures Counted(e, n + 1) == Counted(e.CountAttempt(), n)
  {
    if n == 0 {
      assert Counted(e, 1) == Counted(e, 0).CountAttempt();
    } else {
      CountedFromWrap(e, n - 1);
    }
  }

  // ---------------------------------------------------------------- the loop

  class ConsumeTally {
    var acknowledged: nat
    var retried: nat
    var movedToFailed: nat
    var released: nat

    constructor ()
      ensures acknowledged == 0 && retried == 0 && movedToFailed == 0 && released == 0
    {
      acknowledged, retried, movedToFailed, released := 0, 0, 0, 0;
    }

    method Record(outcome: SettleAction)
      modifies this
      ensures acknowledged == old(acknowledged) + if outcome == Acknowledge then 1 else 0
      ensures retried == old(retried) + if outcome == Retry then 1 else 0
      ensures movedToFailed == old(movedToFailed) + if outcome == MoveToFailed then 1 else 0
      ensures released == old(released) + if outcome == Release then 1 else 0
    {
      match outcome {
        case Acknowledge => acknowledged := acknowledged + 1;
        case Retry => retried := retried + 1;
        case MoveToFailed => movedToFailed := movedToFailed + 1;
        case Release => released := released + 1;
      }
    }

    function Incomplete(): nat
      reads this
    {
      retried + movedToFailed + released
    }
  }

  datatype Outcome = Completed | Incomplete | Stopped

  /** What happens in one iteration: whether the claim reports an error, whether the command can
      be built, how it ends, and whether the settle meets a fault. */
  datatype Turn = Turn(claimFails: bool, built: bool, result: CommandResult, fault: Fault)

  ghost predicate NoFailures(turns: nat -> Turn) {
    forall i :: !turns(i).claimFails && turns(i).fault == NoFault
  }

  ghost predicate AllFail(turns: nat -> Turn) {
    forall i :: turns(i).built && turns(i).result != Ok
  }

  lemma TurnOf(turns: nat -> Turn, i: nat)
    ensures NoFailures(turns) ==> !turns(i).claimFails && turns(i).fault == NoFault
    ensures AllFail(turns) ==> turns(i).built && turns(i).result != Ok
  {
  }

  /** Every message can run out of retries. */
  ghost predicate Limited(s: seq<Raw>) {
    forall x | x in s && x.Message? :: x.envelope.maxRetries < U32_MAX
  }

  /** The state of a run without failures after `n` messages, of which `acked` were acknowledged. */
  ghost predicate Consuming(start: Queue, q: Queue, n: nat, acked: seq<Raw>, moved: nat, alwaysFails: bool) {
    && q.inProgress == start.inProgress
    && start.failed <= q.failed
    && (alwaysFails ==> acked == [])
    && MessageCount(q.pending) + |acked| + moved == MessageCount(start.pending)
    && (forall id :: Total(q, id) + CountId(acked, id) == Total(start, id))
    && (Limited(start.pending) ==> Limited(q.pending) && n + Work(q.pending) <= Work(start.pending))
    && (Limited(start.pending) && alwaysFails ==> n + Work(q.pending) == Work(start.pending))
  }

  /** The claim of a delivery, as the loop sees it. */
  ghost predicate ClaimOf(q: Queue, handle: Handle, d: Delivery) {
    && handle.Owns(d) && q.Claim().1.Some?
    && d.element == Message(q.Claim().1.value) && d.envelope == q.Claim().1.value.CountAttempt()
  }

  lemma TurnCount(q: Queue, handle: Handle, d: Delivery, action: SettleAction, id: nat)
    requires ClaimOf(q, handle, d) && action != Release
    ensures Total(handle.Outcome(q.Claim().0, d, action, NoFault).0, id)
         == Total(q, id) - if action == Acknowledge then IdOf(d.element, id) else 0
  {
    var claimed := q.Claim().0;
    ClaimCount(q, id);
    ClaimSums(q);
    AcknowledgeCount(claimed, d.element, id);
    MoveClaimedCount(claimed, d.element, d.envelope, if action == Retry then Pending else Stage.Failed, id);
  }

  lemma TurnWork(q: Queue, handle: Handle, d: Delivery, action: SettleAction)
    requires ClaimOf(q, handle, d) && Limited(q.pending)
    requires action == Acknowledge || action == MoveToFailed || action == ForAttempt(CommandFailed, d.envelope)
    ensures var q' := handle.Outcome(q.Claim().0, d, action, NoFault).0;
            && Limited(q'.pending) && Work(q'.pending) < Work(q.pending)
            && (action == ForAttempt(CommandFailed, d.envelope) ==> Work(q'.pending) + 1 == Work(q.pending))
  {
    ClaimSums(q);
    SettleNewest(handle, q.Claim().0, q.inProgress, d, action);
    SumsAppend(q.Claim().0.pending, Message(d.envelope));
    RetryLeavesLess(d.element.envelope);
  }

  /** What one message does to the sums over the lane. */
  ghost predicate Effect(q: Queue, q': Queue, x: Raw, action: SettleAction, failed: bool) {
    && q'.inProgress == q.inProgress && q.failed <= q'.failed
    && MessageCount(q'.pending) + (if action == Retry then 0 else 1) == MessageCount(q.pending)
    && (forall id :: Total(q', id) + (if action == Acknowledge then IdOf(x, id) else 0) == Total(q, id))
    && (Limited(q.pending) ==>
          && Limited(q'.pending) && Work(q'.pending) < Work(q.pending)
          && (failed ==> Work(q'.pending) + 1 == Work(q.pending)))
  }

  lemma TurnEffect(q: Queue, handle: Handle, d: Delivery, kind: AttemptKind)
    requires ClaimOf(q, handle, d) && kind != AttemptKind.Interrupted
    ensures var action := ForAttempt(kind, d.envelope);
            var (q', r) := handle.Outcome(q.Claim().0, d, action, NoFault);
            r == Settled(action) && Effect(q, q', d.element, action, kind == CommandFailed)
  {
    var action := ForAttempt(kind, d.envelope);
    ClaimSums(q);
    SettleNewest(handle, q.Claim().0, q.inProgress, d, action);
    SumsAppend(q.Claim().0.pending, Message(d.envelope));
    forall id {
      TurnCount(q, handle, d, action, id);
    }
    if Limited(q.pending) {
      TurnWork(q, handle, d, action);
    }
  }

  lemma ConsumeTurn(start: Queue, q: Queue, n: nat, acked: seq<Raw>, moved: nat, alwaysFails: bool,
                    q': Queue, x: Raw, action: SettleAction)
    requires Consuming(start, q, n, acked, moved, alwaysFails)
    requires action != Release && (alwaysFails ==> action != Acknowledge)
    requires Effect(q, q', x, action, alwaysFails)
    ensures Consuming(start, q', n + 1, if action == Acknowledge then acked + [x] else acked,
                      if action == MoveToFailed then moved + 1 else moved, alwaysFails)
  {
    forall id ensures CountId(acked + [x], id) == CountId(acked, id) + IdOf(x, id) {
      CountAppend(acked, [x], id);
      CountOne(x, id);
    }
  }

  datatype Step = Empty | Broken | Handled(action: SettleAction, delivery: Delivery)

  /** What one iteration comes to. Nothing cancels its run. */
  function StepOf(handle: Handle, q: Queue, turn: Turn): (Queue, Step) {
    var (claimed, message) := q.Claim();
    if turn.claimFails then (q, Broken)
    else match message
         case None => (claimed, Empty)
         case Some(stored) =>
           var kind := AttemptOf(false, turn.built, turn.result, false);
           var d := Delivery(stored.CountAttempt(), handle.lane, handle.driver, Message(stored));
           var (q', r) := handle.Outcome(claimed, d, ForAttempt(kind, d.envelope), turn.fault);
           (q', match r { case Settled(action) => Handled(action, d) case NotSettled(_) => Broken })
  }

  lemma ConsumeStep(start: Queue, q: Queue, n: nat, acked: seq<Raw>, moved: nat, alwaysFails: bool, handle: Handle,
                    turn: Turn)
    requires Consuming(start, q, n, acked, moved, alwaysFails) && (alwaysFails ==> turn.built && turn.result != Ok)
    requires !turn.claimFails && turn.fault == NoFault
    ensures var (q', step) := StepOf(handle, q, turn);
            match step
            case Broken => false
            case Empty => q'.pending == [] && Consuming(start, q', n, acked, moved, alwaysFails)
            case Handled(action, d) =>
              Consuming(start, q', n + 1, if action == Acknowledge then acked + [d.element] else acked,
                        if action == MoveToFailed then moved + 1 else moved, alwaysFails)
  {
    match q.Claim().1 {
      case None =>
        ClaimSums(q);
        forall id ensures Total(q.Claim().0, id) == Total(q, id) {
          ClaimCount(q, id);
        }
      case Some(stored) =>
        var d := Delivery(stored.CountAttempt(), handle.lane, handle.driver, Message(stored));
        var kind := AttemptOf(false, turn.built, turn.result, false);
        TurnEffect(q, handle, d, kind);
        ConsumeTurn(start, q, n, acked, moved, alwaysFails, StepOf(handle, q, turn).0, d.element,
                    ForAttempt(kind, d.envelope));
    }
  }

  /** A command is built and succeeds. */
  predicate Succeeds(turn: Turn) {
    turn.built && turn.result == Ok
  }

  /** A message is acknowledged exactly if its command was built and succeeded. One whose command
      cannot be built moves to failed at once, and one whose command fails while it has retries left
      goes back to pending. Without a cancel nothing is released. */
  lemma HandledBy(handle: Handle, q: Queue, turn: Turn)
    ensures var (q', step) := StepOf(handle, q, turn);
            step.Handled? ==>
              && turn.fault == NoFault && !turn.claimFails
              && ClaimOf(q, handle, step.delivery)
              && (step.action == Acknowledge <==> Succeeds(turn))
              && (step.action == Retry <==> turn.built && !Succeeds(turn)
                                            && step.delivery.envelope.attempts <= step.delivery.envelope.maxRetries)
              && step.action != Release
  {
  }

  /** The messages of the first `n` turns that succeeded, in order. */
  function SucceededOf(handled: seq<Raw>, turns: nat -> Turn, n: nat): seq<Raw>
    requires n <= |handled|
  {
    if n == 0 then []
    else SucceededOf(handled, turns, n - 1) + if Succeeds(turns(n - 1)) then [handled[n - 1]] else []
  }

  lemma {:induction false} SucceededPrefix(handled: seq<Raw>, x: Raw, turns: nat -> Turn, n: nat)
    requires n <= |handled|
    ensures SucceededOf(handled + [x], turns, n) == SucceededOf(handled, turns, n)
  {
    if n > 0 {
      SucceededPrefix(handled, x, turns, n - 1);
    }
  }

  /** What a turn without a failure adds to failed, and to what is there already. */
  lemma TurnFails(handle: Handle, q: Queue, turn: Turn)
    requires !turn.claimFails && turn.fault == NoFault
    ensures var (q', step) := StepOf(handle, q, turn);
            && (forall x | x in q.failed :: x in q'.failed)
            && (step.Handled? && step.action == MoveToFailed ==> Message(step.delivery.envelope) in q'.failed)
  {
    ClaimSums(q);
    if q.Claim().1.Some? {
      var stored := q.Claim().1.value;
      var d := Delivery(stored.CountAttempt(), handle.lane, handle.driver, Message(stored));
      SettleNewest(handle, q.Claim().0, q.inProgress, d,
                   ForAttempt(AttemptOf(false, turn.built, turn.result, false), d.envelope));
    }
  }

  /** Every message that was handled and could not be built is in failed, with its attempt counted. */
  ghost predicate UnbuiltFailed(handled: seq<Raw>, turns: nat -> Turn, failed: seq<Raw>) {
    forall i: nat | i < |handled| && !turns(i).built ::
      handled[i].Message? && Message(handled[i].envelope.CountAttempt()) in failed
  }

  /** Every turn succeeded, or one did not. */
  ghost predicate AllSucceed(turns: nat -> Turn, n: nat) {
    forall i: nat | i < n :: Succeeds(turns(i))
  }

  lemma ConsumeStart(start: Queue, alwaysFails: bool)
    ensures Consuming(start, start, 0, [], 0, alwaysFails)
  {
  }

  /** One iteration: a claim, a run and a settle. */
  method ConsumeOne(handle: Handle, turn: Turn) returns (step: Step)
    modifies handle
    ensures (handle.queue, step) == StepOf(handle, old(handle.queue), turn)
  {
    if turn.claimFails {
      return Broken;
    }
    var claimed := handle.Dequeue();
    if claimed.None? {
      return Empty;
    }
    var settled := handle.Settle(claimed.value, AttemptOf(false, turn.built, turn.result, false), turn.fault);
    step := match settled { case Settled(action) => Handled(action, claimed.value) case NotSettled(_) => Broken };
  }

  /** The whole loop. `handled` lists the messages that the iterations settled, and `acked` those
      that were acknowledged. */
  method Run(handle: Handle, limit: Option<usize>, turns: nat -> Turn)
    returns (outcome: Outcome, tally: ConsumeTally, ghost handled: seq<Raw>, ghost acked: seq<Raw>)
    modifies handle
    ensures fresh(tally) && tally.released == 0
    ensures outcome.Stopped? ==> !NoFailures(turns)
    ensures !outcome.Stopped? ==>
              && |handled| == tally.acknowledged + tally.retried + tally.movedToFailed
              && |handled| <= (if limit.Some? then limit.value else USIZE_MAX)
              && (outcome == Completed <==> AllSucceed(turns, |handled|))
              && acked == SucceededOf(handled, turns, |handled|) && |acked| == tally.acknowledged
    ensures NoFailures(turns) ==>
              && Consuming(old(handle.queue), handle.queue, |handled|, acked, tally.movedToFailed, AllFail(turns))
              && UnbuiltFailed(handled, turns, handle.queue.failed)
              && (handle.queue.pending == [] || |handled| == if limit.Some? then limit.value else USIZE_MAX)
  {
    hide Consuming;
    hide StepOf;
    hide NoFailures;
    hide AllFail;
    hide SucceededOf;
    hide UnbuiltFailed;
    hide AllSucceed;
    hide ClaimOf;
    var bound := if limit.Some? then limit.value else USIZE_MAX;
    tally := new ConsumeTally();
    handled, acked := [], [];
    ghost var start, fine, allFail := handle.queue, NoFailures(turns), AllFail(turns);
    ConsumeStart(start, allFail);
    NothingHandled(turns, start.failed);
    for i := 0 to bound
      invariant fresh(tally) && tally.released == 0
      invariant |handled| == i == tally.acknowledged + tally.retried + tally.movedToFailed
      invariant |acked| == tally.acknowledged && acked == SucceededOf(handled, turns, i)
      invariant tally.Incomplete() == 0 <==> AllSucceed(turns, i)
      invariant fine ==> Consuming(start, handle.queue, i, acked, tally.movedToFailed, allFail)
      invariant fine ==> UnbuiltFailed(handled, turns, handle.queue.failed)
    {
      ghost var before := handle.queue;
      HandledBy(handle, before, turns(i));
      if fine {
        TurnOf(turns, i);
        ConsumeStep(start, before, i, acked, tally.movedToFailed, allFail, handle, turns(i));
        TurnFails(handle, before, turns(i));
      }
      var step := ConsumeOne(handle, turns(i));
      UnbuiltStay(handled, turns, before.failed, handle.queue.failed);
      match step {
        case Broken =>
          return Outcome.Stopped, tally, handled, acked;
        case Empty =>
          break;
        case Handled(action, d) =>
          tally.Record(action);
          HandledMore(handled, d, turns, handle.queue.failed);
          handled := handled + [d.element];
          acked := if action == Acknowledge then acked + [d.element] else acked;
      }
    }
    outcome := if tally.Incomplete() > 0 then Incomplete else Completed;
  }

  lemma NothingHandled(turns: nat -> Turn, failed: seq<Raw>)
    ensures SucceededOf([], turns, 0) == [] && UnbuiltFailed([], turns, failed) && AllSucceed(turns, 0)
  {
  }

  lemma UnbuiltStay(handled: seq<Raw>, turns: nat -> Turn, failed: seq<Raw>, failed': seq<Raw>)
    ensures UnbuiltFailed(handled, turns, failed) && (forall x | x in failed :: x in failed') ==>
              UnbuiltFailed(handled, turns, failed')
  {
  }

  lemma HandledMore(handled: seq<Raw>, d: Delivery, turns: nat -> Turn, failed: seq<Raw>)
    ensures var n, all := |handled|, handled + [d.element];
            && SucceededOf(all, turns, n + 1)
               == SucceededOf(handled, turns, n) + (if Succeeds(turns(n)) then [d.element] else [])
            && (AllSucceed(turns, n + 1) <==> AllSucceed(turns, n) && Succeeds(turns(n)))
            && (UnbuiltFailed(handled, turns, failed)
                && (!turns(n).built ==> d.element.Message? && Message(d.element.envelope.CountAttempt()) in failed) ==>
                  UnbuiltFailed(all, turns, failed))
  {
    SucceededPrefix(handled, d.element, turns, |handled|);
  }

  /** The loop without a limit and without failures, when every message can run out of retries. It
      stops with nothing pending, within the work, and with each message acknowledged or in the
      failed stage. If every command fails, it takes exactly the work. */
  method RunUntilEmpty(handle: Handle, turns: nat -> Turn)
    returns (outcome: Outcome, tally: ConsumeTally, ghost n: nat)
    requires NoFailures(turns) && Limited(handle.queue.pending) && Work(handle.queue.pending) < USIZE_MAX
    modifies handle
    ensures fresh(tally) && n == tally.acknowledged + tally.retried + tally.movedToFailed && tally.released == 0
    ensures handle.queue.pending == [] && handle.queue.inProgress == old(handle.queue).inProgress
    ensures n <= Work(old(handle.queue).pending)
    ensures tally.acknowledged + tally.movedToFailed == MessageCount(old(handle.queue).pending)
    ensures AllFail(turns) ==> n == Work(old(handle.queue).pending) && tally.acknowledged == 0
    ensures outcome == Completed <==> AllSucceed(turns, n)
  {
    ghost var handled, acked;
    outcome, tally, handled, acked := Run(handle, None, turns);
    n := |handled|;
  }
}
