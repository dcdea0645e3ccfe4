/** The order of a lane over whole runs. */
module FifoOrder {
  import opened Messages
  import opened AbstractQueue
  import Q = QueueCalls

  /** Calls that put nothing back into pending and clear nothing from it. */
  predicate Forward(call: Q.Call) {
    !call.Retry? && !call.Release? && !call.Recover? && !call.Republish? && !(call.Clear? && call.stage == Pending)
  }

  /** An element as a claim hands it out. */
  function HandsOut(x: Raw): seq<Envelope> {
    match x
    case Message(e) => [e.CountAttempt()]
    case Malformed(_) => []
  }

  function Waiting(s: seq<Raw>): seq<Envelope> {
    if s == [] then [] else HandsOut(s[0]) + Waiting(s[1..])
  }

  function Enters(call: Q.Call): seq<Envelope> {
    if call.Publish? then [call.envelope.CountAttempt()] else []
  }

  function Leaves(reply: Q.Reply): seq<Envelope> {
    if reply.Claimed? && reply.envelope.Some? then [reply.envelope.value] else []
  }

  function Published(calls: seq<Q.Call>, n: nat): seq<Envelope>
    requires n <= |calls|
  {
    if n == 0 then [] else Published(calls, n - 1) + Enters(calls[n - 1])
  }

  function HandedOut(replies: seq<Q.Reply>): seq<Envelope> {
    if replies == [] then [] else HandedOut(replies[..|replies| - 1]) + Leaves(replies[|replies| - 1])
  }

  lemma {:induction false} WaitingAppend(s: seq<Raw>, x: Raw)
    ensures Waiting(s + [x]) == Waiting(s) + HandsOut(x)
  {
    if s == [] {
      assert s + [x] == [x] && [x][1..] == [];
    } else {
      assert (s + [x])[1..] == s[1..] + [x];
      WaitingAppend(s[1..], x);
      assert HandsOut(s[0]) + (Waiting(s[1..]) + HandsOut(x)) == Waiting(s) + HandsOut(x);
    }
  }

  /** A claim hands out the first message of pending. */
  lemma {:induction false} ClaimHandsOut(q: Queue)
    ensures var (q', claimed) := q.Claim();
            match claimed
            case None => Waiting(q.pending) == Waiting(q'.pending)
            case Some(e) => Waiting(q.pending) == HandsOut(Message(e)) + Waiting(q'.pending)
    decreases |q.pending|
  {
    if q.pending != [] && q.pending[0].Malformed? {
      ClaimHandsOut(Queue(q.pending[1..], q.inProgress, q.failed + [q.pending[0]]));
    }
  }

  lemma ForwardStep(s: Q.System, call: Q.Call)
    requires Forward(call)
    ensures var (s', reply) := Q.Step(s, call);
            Leaves(reply) + Waiting(s'.queue.pending) == Waiting(s.queue.pending) + Enters(call)
  {
    var before, after := s.queue.pending, Q.Step(s, call).0.queue.pending;
    if call.Publish? {
      WaitingAppend(before, Message(call.envelope));
    } else if call.Intrude? {
      WaitingAppend(before, Malformed(call.text));
      assert HandsOut(Malformed(call.text)) == [];
    } else if call.Dequeue? {
      ClaimHandsOut(s.queue);
    } else {
      assert after == before;
    }
    assert Waiting(before) + [] == Waiting(before) && [] + Waiting(after) == Waiting(after);
  }

  lemma Chain(out: seq<Envelope>, waiting: seq<Envelope>, published: seq<Envelope>,
              leaves: seq<Envelope>, waiting': seq<Envelope>, enters: seq<Envelope>)
    requires out + waiting == published && leaves + waiting' == waiting + enters
    ensures out + leaves + waiting' == published + enters
  {
    assert out + leaves + waiting' == out + (leaves + waiting');
    assert out + (waiting + enters) == out + waiting + enters;
  }

  lemma ForwardOrder(s: Q.System, replies: seq<Q.Reply>, published: seq<Envelope>, call: Q.Call)
    requires Forward(call) && HandedOut(replies) + Waiting(s.queue.pending) == published
    ensures var (s', reply) := Q.Step(s, call);
            HandedOut(replies + [reply]) + Waiting(s'.queue.pending) == published + Enters(call)
  {
    hide Q.Step;
    var (s', reply) := Q.Step(s, call);
    ForwardStep(s, call);
    Chain(HandedOut(replies), Waiting(s.queue.pending), published, Leaves(reply), Waiting(s'.queue.pending),
          Enters(call));
    assert (replies + [reply])[..|replies|] == replies;
  }

  /** First in, first out: what was handed out, followed by what is pending, is what was
      published, in order. */
  lemma {:induction false} FirstInFirstOut(calls: seq<Q.Call>, n: nat)
    requires n <= |calls| && forall i | 0 <= i < n :: Forward(calls[i])
    ensures var (s, replies) := Q.Run(calls, n);
            HandedOut(replies) + Waiting(s.queue.pending) == Published(calls, n)
  {
    if n > 0 {
      var before := Q.Run(calls, n - 1);
      var after := Q.Step(before.0, calls[n - 1]);
      FirstInFirstOut(calls, n - 1);
      ForwardOrder(before.0, before.1, Published(calls, n - 1), calls[n - 1]);
      hide *;
      assert Q.Run(calls, n) == (after.0, before.1 + [after.1]) by {
        RunNext(calls, n);
      }
      assert Published(calls, n) == Published(calls, n - 1) + Enters(calls[n - 1]) by {
        PublishedNext(calls, n);
      }
    }
  }

  lemma RunNext(calls: seq<Q.Call>, n: nat)
    requires 0 < n <= |calls|
    ensures var before := Q.Run(calls, n - 1);
            var after := Q.Step(before.0, calls[n - 1]);
            Q.Run(calls, n) == (after.0, before.1 + [after.1])
  {
    hide Q.Step;
  }

  lemma PublishedNext(calls: seq<Q.Call>, n: nat)
    requires 0 < n <= |calls|
    ensures Published(calls, n) == Published(calls, n - 1) + Enters(calls[n - 1])
  {
  }
}
