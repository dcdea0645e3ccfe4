/** A connection to one lane (`Queue` of mod.rs): claims, settles and what a settle reports. The
    lane behind it is the abstract queue that both drivers refine. */
module QueueHandle {
  import opened Messages
  import opened AbstractQueue
  import opened RetryPolicy

  datatype Lane = Primary | Secondary

  datatype Driver = FileDriver | RedisDriver

  /** `element` is what the receipt stands for. */
  datatype Delivery = Delivery(envelope: Envelope, lane: Lane, driver: Driver, element: Raw) {
    function TakeBackAttempt(): Delivery {
      this.(envelope := envelope.TakeBackAttempt())
    }
  }

  datatype SettleError = Lost | Rejected(delivery: Delivery) | Interrupted(delivery: Delivery) {
    function IntoDelivery(): Option<Delivery> {
      match this
      case Lost => None
      case Rejected(delivery) => Some(delivery)
      case Interrupted(delivery) => Some(delivery)
    }
  }

  datatype SettleResult = Settled(action: SettleAction) | NotSettled(error: SettleError)

  /** A driver call may report an error before or after it changed the lane. */
  datatype Fault = NoFault | FailsBefore | FailsAfter

  /** What the driver does for a settle. */
  function Applied(q: Queue, d: Delivery, action: SettleAction): (Queue, bool) {
    match action
    case Acknowledge => q.Acknowledge(d.element)
    case Retry => q.MoveClaimed(d.element, d.envelope, Pending)
    case MoveToFailed => q.MoveClaimed(d.element, d.envelope, Failed)
    case Release => q.MoveClaimed(d.element, d.envelope, Pending)
  }

  /** A release subtracts its attempt before anything else can fail. */
  function Carried(d: Delivery, action: SettleAction): Delivery {
    if action == Release then d.TakeBackAttempt() else d
  }

  function Reported(d: Delivery, action: SettleAction, found: bool, fault: Fault): SettleResult {
    if fault != NoFault then NotSettled(SettleError.Interrupted(d))
    else if found then Settled(action)
    else NotSettled(Lost)
  }

  class Handle {
    const lane: Lane
    const driver: Driver
    var queue: Queue

    constructor (lane: Lane, driver: Driver, queue: Queue)
      ensures this.lane == lane && this.driver == driver && this.queue == queue
    {
      this.lane, this.driver, this.queue := lane, driver, queue;
    }

    predicate Owns(d: Delivery) {
      d.lane == lane && d.driver == driver
    }

    /** The new lane and the report of a settle. */
    function Outcome(q: Queue, d: Delivery, action: SettleAction, fault: Fault): (Queue, SettleResult) {
      var sent := Carried(d, action);
      if !Owns(d) then (q, NotSettled(Rejected(sent)))
      else
        var (q', found) := Applied(q, sent, action);
        (if fault == FailsBefore then q else q', Reported(sent, action, found, fault))
    }

    method Dequeue() returns (delivery: Option<Delivery>)
      modifies this
      ensures queue == old(queue).Claim().0
      ensures match old(queue).Claim().1
              case None => delivery == None
              case Some(stored) => delivery == Some(Delivery(stored.CountAttempt(), lane, driver, Message(stored)))
    {
      var (q, claimed) := queue.Claim();
      queue := q;
      match claimed {
        case None => return None;
        case Some(stored) => return Some(Delivery(stored.CountAttempt(), lane, driver, Message(stored)));
      }
    }

    method Acknowledge(d: Delivery, fault: Fault) returns (r: SettleResult)
      modifies this
      ensures (queue, r) == Outcome(old(queue), d, SettleAction.Acknowledge, fault)
    {
      if !Owns(d) {
        return NotSettled(Rejected(d));
      }
      var (q, found) := queue.Acknowledge(d.element);
      if fault != FailsBefore {
        queue := q;
      }
      r := Reported(d, SettleAction.Acknowledge, found, fault);
    }

    method MoveClaimed(d: Delivery, target: Stage, action: SettleAction, fault: Fault) returns (r: SettleResult)
      modifies this
      ensures !Owns(d) ==> queue == old(queue) && r == NotSettled(Rejected(d))
      ensures Owns(d) ==>
                var (q, found) := old(queue).MoveClaimed(d.element, d.envelope, target);
                && queue == (if fault == FailsBefore then old(queue) else q)
                && r == Reported(d, action, found, fault)
    {
      if !Owns(d) {
        return NotSettled(Rejected(d));
      }
      var (q, found) := queue.MoveClaimed(d.element, d.envelope, target);
      if fault != FailsBefore {
        queue := q;
      }
      r := Reported(d, action, found, fault);
    }

    method Retry(d: Delivery, fault: Fault) returns (r: SettleResult)
      modifies this
      ensures (queue, r) == Outcome(old(queue), d, SettleAction.Retry, fault)
    {
      r := MoveClaimed(d, Pending, SettleAction.Retry, fault);
    }

    method MoveToFailed(d: Delivery, fault: Fault) returns (r: SettleResult)
      modifies this
      ensures (queue, r) == Outcome(old(queue), d, SettleAction.MoveToFailed, fault)
    {
      r := MoveClaimed(d, Failed, SettleAction.MoveToFailed, fault);
    }

    method Release(d: Delivery, fault: Fault) returns (r: SettleResult)
      modifies this
      ensures (queue, r) == Outcome(old(queue), d, SettleAction.Release, fault)
    {
      r := MoveClaimed(d.TakeBackAttempt(), Pending, SettleAction.Release, fault);
    }

    /** Settles by the policy table (delivery.rs). */
    method Settle(d: Delivery, kind: AttemptKind, fault: Fault) returns (r: SettleResult)
      modifies this
      ensures (queue, r) == Outcome(old(queue), d, ForAttempt(kind, d.envelope), fault)
    {
      match ForAttempt(kind, d.envelope) {
        case Acknowledge => r := Acknowledge(d, fault);
        case Retry => r := Retry(d, fault);
        case MoveToFailed => r := MoveToFailed(d, fault);
        case Release => r := Release(d, fault);
      }
    }
  }

  lemma RemoveLast(s: seq<Raw>, x: Raw)
    ensures RemoveNewest(s + [x], x) == s
  {
    assert (s + [x])[..|s + [x]| - 1] == s;
  }

  /** A settle right after the claim finds its element, and leaves in-progress as it was. */
  lemma SettleNewest(handle: Handle, q: Queue, claimed: seq<Raw>, d: Delivery, action: SettleAction)
    requires handle.Owns(d) && q.inProgress == claimed + [d.element]
    ensures var (q', r) := handle.Outcome(q, d, action, NoFault);
            var x := Message(Carried(d, action).envelope);
            && r == Settled(action)
            && q' == match action
                     case Acknowledge => Queue(q.pending, claimed, q.failed)
                     case MoveToFailed => Queue(q.pending, claimed, q.failed + [x])
                     case _ => Queue(q.pending + [x], claimed, q.failed)
  {
    RemoveLast(claimed, d.element);
  }

  /** What a report says about the lane. A settle succeeds exactly when the delivery is this
      lane's and this driver's, its element is in progress and the driver meets no fault. `Lost`
      gives no delivery back. Every other error does, and a release has then already taken its
      attempt back. Short of a fault after the change, an error means that the lane is as it was. */
  lemma SettleReports(handle: Handle, q: Queue, d: Delivery, action: SettleAction, fault: Fault)
    ensures var (q', r) := handle.Outcome(q, d, action, fault);
            var owned := d.lane == handle.lane && d.driver == handle.driver;
            && (r == Settled(action) <==> owned && d.element in q.inProgress && fault == NoFault)
            && (r == NotSettled(Lost) <==> owned && d.element !in q.inProgress && fault == NoFault)
            && (r.NotSettled? && r.error.Rejected? <==> !owned)
            && (r.NotSettled? ==> r.error.IntoDelivery() == if r.error == Lost then None else Some(Carried(d, action)))
            && (r.NotSettled? && (owned ==> fault != FailsAfter) ==> q' == q)
            && (action != Release ==> Carried(d, action) == d)
            && (action == Release ==> Carried(d, action) == d.(envelope := d.envelope.TakeBackAttempt()))
  {
  }
}
