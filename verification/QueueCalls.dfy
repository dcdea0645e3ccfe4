/** Any sequence of calls of `Queue` on one lane, with the deliveries that the callers hold, and
    what the calls keep about message ids. */
module QueueCalls {
  import opened Integers
  import opened Messages
  import opened AbstractQueue
  import opened Conservation

  /** The calls of `Queue`. A settle names a delivery by its position among the ones held.
      `Intrude` is another program writing an element that does not parse. */
  datatype Call =
    | Publish(envelope: Envelope)
    | Intrude(text: nat)
    | Dequeue
    | Acknowledge(k: nat)
    | Retry(k: nat)
    | MoveToFailed(k: nat)
    | Release(k: nat)
    | Recover
    | Republish(limit: nat)
    | Clear(stage: Stage)
    | Peek(stage: Stage, first: usize, last: usize)
    | Lengths

  datatype Reply =
    | Done
    | NoSuchDelivery
    | Claimed(envelope: Option<Envelope>)
    | Settled
    | Lost
    | Count(n: nat)
    | Read(messages: seq<Raw>)
    | Counts(pending: nat, inProgress: nat, failed: nat)

  datatype Held = Held(element: Raw, envelope: Envelope)

  /** The abstract lane, the deliveries held, oldest first, and every id published so far. */
  datatype System = System(queue: Queue, held: seq<Held>, published: set<nat>)

  const EMPTY := System(Queue([], [], []), [], {})

  function SettleReply(found: bool): Reply {
    if found then Settled else Lost
  }

  function Drop<T>(s: seq<T>, k: nat): seq<T>
    requires k < |s|
  {
    s[..k] + s[k + 1..]
  }

  function Settle(s: System, k: nat, envelope: Envelope, target: Stage): (System, Reply)
    requires k < |s.held|
  {
    var (queue, found) := s.queue.MoveClaimed(s.held[k].element, envelope, target);
    (System(queue, Drop(s.held, k), s.published), SettleReply(found))
  }

  /** One call. A recovery drops every held delivery: its documentation asks the caller to stop
      every consumer first (mod.rs:214-216). */
  function Step(s: System, call: Call): (System, Reply) {
    match call
    case Publish(envelope) =>
      (System(s.queue.Publish(envelope), s.held, s.published + {envelope.id}), Done)
    case Intrude(text) => (s.(queue := s.queue.Append(Pending, Malformed(text))), Done)
    case Dequeue =>
      var (queue, claimed) := s.queue.Claim();
      (match claimed
       case None => (s.(queue := queue), Claimed(None))
       case Some(e) =>
         (System(queue, s.held + [Held(Message(e), e.CountAttempt())], s.published), Claimed(Some(e.CountAttempt()))))
    case Acknowledge(k) =>
      if k >= |s.held| then (s, NoSuchDelivery)
      else
        var (queue, found) := s.queue.Acknowledge(s.held[k].element);
        (System(queue, Drop(s.held, k), s.published), SettleReply(found))
    case Retry(k) =>
      if k >= |s.held| then (s, NoSuchDelivery) else Settle(s, k, s.held[k].envelope, Pending)
    case MoveToFailed(k) =>
      if k >= |s.held| then (s, NoSuchDelivery) else Settle(s, k, s.held[k].envelope, Failed)
    case Release(k) =>
      if k >= |s.held| then (s, NoSuchDelivery) else Settle(s, k, s.held[k].envelope.TakeBackAttempt(), Pending)
    case Recover =>
      var (queue, moved) := s.queue.Recover();
      (System(queue, [], s.published), Count(moved))
    case Republish(limit) =>
      var (queue, moved) := s.queue.Republish(limit);
      (s.(queue := queue), Count(moved))
    case Clear(stage) =>
      var (queue, removed) := s.queue.Clear(stage);
      (s.(queue := queue), Count(removed))
    case Peek(stage, first, last) =>
      (s, Read(if last < first then [] else s.queue.Peek(stage, first, last)))
    case Lengths =>
      (s, Counts(|s.queue.pending|, |s.queue.inProgress|, |s.queue.failed|))
  }

  /** The count that a recovery, a republish or a clear replies is the number of elements that left
      its stage. */
  lemma CountsLeaving(s: System, call: Call)
    requires call.Recover? || call.Republish? || call.Clear?
    ensures var (s', reply) := Step(s, call);
            var stage := match call
                         case Republish(_) => Failed
                         case Clear(stage) => stage
                         case _ => InProgress;
            reply == Count(|s.queue.Get(stage)| - |s'.queue.Get(stage)|)
  {
    match call {
      case Recover => RecoverCounts(s.queue);
      case Republish(limit) => RepublishCounts(s.queue, limit);
      case Clear(stage) => ClearCounts(s.queue, stage);
    }
  }

  predicate Settles(call: Call) {
    call.Acknowledge? || call.Retry? || call.MoveToFailed? || call.Release?
  }

  /** A settle is reported as done exactly if its element is in progress, and the delivery is used up
      either way. A peek and the lengths change nothing. A peek reads the elements at its positions,
      and a reversed range nothing. */
  lemma RepliesTell(s: System, call: Call)
    ensures var (s', reply) := Step(s, call);
            && (Settles(call) && call.k >= |s.held| ==> s' == s && reply == NoSuchDelivery)
            && (Settles(call) && call.k < |s.held| ==>
                  && s'.held == s.held[..call.k] + s.held[call.k + 1..]
                  && reply == if s.held[call.k].element in s.queue.inProgress then Settled else Lost)
            && (call.Peek? ==>
                  && s' == s && reply.Read?
                  && var stage, read := s.queue.Get(call.stage), reply.messages;
                     && (forall i | call.first <= i <= call.last && i < |stage| ::
                           i - call.first < |read| && read[i - call.first] == stage[i])
                     && (read != [] ==> call.first + |read| <= Min(call.last + 1, |stage|)))
            && (call.Lengths? ==>
                  s' == s && reply == Counts(|s.queue.pending|, |s.queue.inProgress|, |s.queue.failed|))
  {
    if call.Peek? {
      WindowShows(s.queue.Get(call.stage), call.first, call.last);
    }
  }

  /** The state and the replies after the first `n` calls. */
  function Run(calls: seq<Call>, n: nat): (System, seq<Reply>)
    requires n <= |calls|
  {
    if n == 0 then (EMPTY, [])
    else
      var (s, replies) := Run(calls, n - 1);
      var (s', reply) := Step(s, calls[n - 1]);
      (s', replies + [reply])
  }

  // ---------------------------------------------------------------- ids

  /** Every id is stored at most once, and was published. A held message is in progress or gone
      from the lane, and no two held messages have one id. */
  ghost predicate IdsOk(s: System) {
    && (forall id :: Total(s.queue, id) <= 1)
    && (forall id :: Total(s.queue, id) > 0 ==> id in s.published)
    && (forall k | 0 <= k < |s.held| :: HeldOk(s, s.held[k]))
    && (forall j, k | 0 <= j < k < |s.held| :: s.held[j].envelope.id != s.held[k].envelope.id)
  }

  ghost predicate HeldOk(s: System, h: Held) {
    && h.element.HasId(h.envelope.id)
    && h.envelope.id in s.published
    && (h.element in s.queue.inProgress || Total(s.queue, h.envelope.id) == 0)
  }

  predicate Fresh(s: System, call: Call) {
    call.Publish? ==> call.envelope.id !in s.published
  }

  /** A claim takes one message out of pending and puts it at the end of in-progress. */
  lemma {:induction false} ClaimTakes(q: Queue)
    ensures match q.Claim().1
            case None => q.Claim().0.inProgress == q.inProgress
            case Some(e) => Message(e) in q.pending && q.Claim().0.inProgress == q.inProgress + [Message(e)]
    decreases |q.pending|
  {
    if q.pending != [] && q.pending[0].Malformed? {
      ClaimTakes(Queue(q.pending[1..], q.inProgress, q.failed + [q.pending[0]]));
    }
  }

  lemma TotalMember(q: Queue, x: Raw, id: nat)
    requires x.HasId(id)
    ensures x in q.pending ==> CountId(q.pending, id) >= 1
    ensures x in q.inProgress ==> CountId(q.inProgress, id) >= 1
    ensures x in q.failed ==> CountId(q.failed, id) >= 1
  {
    if x in q.failed { CountMember(q.failed, x, id); }
    if x in q.pending { CountMember(q.pending, x, id); }
    if x in q.inProgress { CountMember(q.inProgress, x, id); }
  }

  /** A claimed message is none of the held ones. */
  lemma ClaimedIsNew(s: System, e: Envelope, k: nat)
    requires IdsOk(s) && Message(e) in s.queue.pending && k < |s.held|
    ensures s.held[k].envelope.id != e.id
  {
    var h := s.held[k];
    assert HeldOk(s, h) && Total(s.queue, e.id) <= 1;
    TotalMember(s.queue, Message(e), e.id);
    TotalMember(s.queue, h.element, h.envelope.id);
  }

  /** An operation that leaves in-progress alone and adds no message. */
  lemma QuietStep(s: System, s': System)
    requires IdsOk(s) && s'.published == s.published && s'.held == s.held
    requires s'.queue.inProgress == s.queue.inProgress
    requires forall id :: Total(s'.queue, id) <= Total(s.queue, id)
    ensures IdsOk(s')
  {
    forall k | 0 <= k < |s'.held| ensures HeldOk(s', s'.held[k]) {
      assert HeldOk(s, s.held[k]);
    }
  }

  lemma PublishIds(s: System, e: Envelope)
    requires IdsOk(s) && e.id !in s.published
    ensures IdsOk(Step(s, Publish(e)).0)
  {
    var s' := Step(s, Publish(e)).0;
    forall id ensures Total(s'.queue, id) == Total(s.queue, id) + (if id == e.id then 1 else 0) {
      AppendCount(s.queue, Pending, Message(e), id);
    }
    forall k | 0 <= k < |s'.held| ensures HeldOk(s', s'.held[k]) {
      assert HeldOk(s, s.held[k]);
    }
  }

  lemma DequeueIds(s: System)
    requires IdsOk(s)
    ensures IdsOk(Step(s, Dequeue).0)
  {
    var s' := Step(s, Dequeue).0;
    ClaimTakes(s.queue);
    forall id ensures Total(s'.queue, id) == Total(s.queue, id) {
      ClaimCount(s.queue, id);
    }
    match s.queue.Claim().1 {
      case None => QuietStep(s, s');
      case Some(e) =>
        TotalMember(s.queue, Message(e), e.id);
        forall k | 0 <= k < |s'.held|
          ensures HeldOk(s', s'.held[k])
          ensures k < |s.held| ==> s'.held[k].envelope.id != e.id
        {
          if k < |s.held| {
            assert HeldOk(s, s.held[k]);
            ClaimedIsNew(s, e, k);
          }
        }
    }
  }

  /** Taking out the element of one delivery leaves the elements of the others. */
  lemma OthersStay(s: System, k: nat, j: nat)
    requires IdsOk(s) && k < |s.held| && j < |s.held| && j != k
    requires s.held[k].element in s.queue.inProgress
    ensures s.held[j].element in RemoveNewest(s.queue.inProgress, s.held[k].element)
       <==> s.held[j].element in s.queue.inProgress
  {
    assert HeldOk(s, s.held[k]) && HeldOk(s, s.held[j]);
    assert s.held[j].element != s.held[k].element;
    var a, b := NewestSplit(s.queue.inProgress, s.held[k].element);
  }

  lemma DropOne<T>(s: seq<T>, k: nat)
    requires k < |s|
    ensures |Drop(s, k)| == |s| - 1
    ensures forall j | 0 <= j < |s| - 1 :: Drop(s, k)[j] == s[if j < k then j else j + 1]
  {
  }

  /** Settling delivery `k` changes what is stored under its id only. */
  lemma SettleIds(s: System, k: nat, s': System)
    requires IdsOk(s) && k < |s.held|
    requires s'.held == Drop(s.held, k) && s'.published == s.published
    requires s'.queue.inProgress == s.queue.Acknowledge(s.held[k].element).0.inProgress
    requires forall id :: Total(s'.queue, id) <= Total(s.queue, id)
    ensures IdsOk(s')
  {
    DropOne(s.held, k);
    forall i | 0 <= i < |s'.held| ensures HeldOk(s', s'.held[i]) {
      var j := if i < k then i else i + 1;
      assert HeldOk(s, s.held[j]);
      if s.held[k].element in s.queue.inProgress {
        OthersStay(s, k, j);
      }
    }
  }

  lemma AcknowledgeIds(s: System, k: nat)
    requires IdsOk(s) && k < |s.held|
    ensures IdsOk(Step(s, Acknowledge(k)).0)
  {
    var s' := Step(s, Acknowledge(k)).0;
    forall id ensures Total(s'.queue, id) <= Total(s.queue, id) {
      AcknowledgeCount(s.queue, s.held[k].element, id);
    }
    SettleIds(s, k, s');
  }

  lemma MoveIds(s: System, k: nat, envelope: Envelope, target: Stage)
    requires IdsOk(s) && k < |s.held| && target != InProgress && envelope.id == s.held[k].envelope.id
    ensures IdsOk(Settle(s, k, envelope, target).0)
  {
    var s' := Settle(s, k, envelope, target).0;
    assert HeldOk(s, s.held[k]);
    forall id ensures Total(s'.queue, id) <= Total(s.queue, id) {
      MoveClaimedCount(s.queue, s.held[k].element, envelope, target, id);
    }
    SettleIds(s, k, s');
  }

  lemma ClearIds(s: System, stage: Stage)
    requires IdsOk(s)
    ensures IdsOk(Step(s, Clear(stage)).0)
  {
    var s' := Step(s, Clear(stage)).0;
    forall id ensures Total(s'.queue, id) <= Total(s.queue, id) {
      ClearCount(s.queue, stage, id);
    }
    forall k | 0 <= k < |s'.held| ensures HeldOk(s', s'.held[k]) {
      assert HeldOk(s, s.held[k]);
      TotalMember(s.queue, s.held[k].element, s.held[k].envelope.id);
      assert Total(s.queue, s.held[k].envelope.id) <= 1;
    }
  }

  lemma IdsStep(s: System, call: Call)
    requires IdsOk(s) && Fresh(s, call)
    ensures IdsOk(Step(s, call).0)
  {
    var s' := Step(s, call).0;
    match call {
      case Publish(e) => PublishIds(s, e);
      case Intrude(text) =>
        forall id ensures Total(s'.queue, id) <= Total(s.queue, id) {
          AppendCount(s.queue, Pending, Malformed(text), id);
        }
        QuietStep(s, s');
      case Dequeue => DequeueIds(s);
      case Acknowledge(k) => if k < |s.held| { AcknowledgeIds(s, k); }
      case Retry(k) => if k < |s.held| { MoveIds(s, k, s.held[k].envelope, Pending); }
      case MoveToFailed(k) => if k < |s.held| { MoveIds(s, k, s.held[k].envelope, Failed); }
      case Release(k) => if k < |s.held| { MoveIds(s, k, s.held[k].envelope.TakeBackAttempt(), Pending); }
      case Recover =>
        forall id ensures Total(s'.queue, id) == Total(s.queue, id) {
          RecoverCount(s.queue, id);
        }
      case Republish(limit) =>
        forall id ensures Total(s'.queue, id) == Total(s.queue, id) {
          RepublishCount(s.queue, limit, id);
        }
        QuietStep(s, s');
      case Clear(stage) => ClearIds(s, stage);
      case Peek(_, _, _) =>
      case Lengths =>
    }
  }

  // ---------------------------------------------------------------- runs

  function IdsIn(calls: seq<Call>, n: nat): set<nat>
    requires n <= |calls|
  {
    if n == 0 then {}
    else IdsIn(calls, n - 1) + if calls[n - 1].Publish? then {calls[n - 1].envelope.id} else {}
  }

  /** No message is published twice: an id is a new UUID. */
  predicate DistinctIds(calls: seq<Call>, n: nat)
    requires n <= |calls|
  {
    n == 0
    || (DistinctIds(calls, n - 1) && (calls[n - 1].Publish? ==> calls[n - 1].envelope.id !in IdsIn(calls, n - 1)))
  }

  lemma {:induction false} PublishedIds(calls: seq<Call>, n: nat)
    requires n <= |calls|
    ensures Run(calls, n).0.published == IdsIn(calls, n)
  {
    if n > 0 {
      PublishedIds(calls, n - 1);
    }
  }

  lemma {:induction false} RunFresh(calls: seq<Call>, n: nat, m: nat)
    requires n < m <= |calls| && DistinctIds(calls, m)
    ensures Fresh(Run(calls, n).0, calls[n])
    decreases m
  {
    if n < m - 1 {
      RunFresh(calls, n, m - 1);
    } else {
      PublishedIds(calls, n);
    }
  }

  function Size(q: Queue): nat {
    |q.pending| + |q.inProgress| + |q.failed|
  }

  lemma {:induction false} RemoveNewestSize(s: seq<Raw>, x: Raw)
    ensures |RemoveNewest(s, x)| == |s| - if x in s then 1 else 0
  {
    if x in s {
      var a, b := NewestSplit(s, x);
    } else if s != [] {
      RemoveNewestSize(s[..|s| - 1], x);
    }
  }

  lemma {:induction false} ClaimSize(q: Queue)
    ensures Size(q.Claim().0) == Size(q)
    decreases |q.pending|
  {
    if q.pending != [] && q.pending[0].Malformed? {
      ClaimSize(Queue(q.pending[1..], q.inProgress, q.failed + [q.pending[0]]));
    }
  }

  lemma StepSize(s: System, call: Call)
    ensures Size(Step(s, call).0.queue) <= Size(s.queue) + 1
  {
    match call {
      case Dequeue => ClaimSize(s.queue);
      case Acknowledge(_) | Retry(_) | MoveToFailed(_) | Release(_) =>
        if call.k < |s.held| {
          RemoveNewestSize(s.queue.inProgress, s.held[call.k].element);
        }
      case _ =>
    }
  }

  /** Each call adds at most one element. */
  lemma {:induction false} RunSize(calls: seq<Call>, n: nat)
    requires n <= |calls|
    ensures Size(Run(calls, n).0.queue) <= n
  {
    if n > 0 {
      RunSize(calls, n - 1);
      StepSize(Run(calls, n - 1).0, calls[n - 1]);
    }
  }
}
