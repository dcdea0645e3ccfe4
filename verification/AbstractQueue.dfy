/** One lane as three sequences of stored elements, oldest first, with one atomic transition for
    each operation of `Queue` in mod.rs. Both drivers refine it. */
module AbstractQueue {
  import opened Integers
  import opened Messages

  datatype Queue = Queue(pending: seq<Raw>, inProgress: seq<Raw>, failed: seq<Raw>) {

    function Get(stage: Stage): seq<Raw> {
      match stage
      case Pending => pending
      case InProgress => inProgress
      case Failed => failed
    }

    function With(stage: Stage, elements: seq<Raw>): Queue {
      match stage
      case Pending => this.(pending := elements)
      case InProgress => this.(inProgress := elements)
      case Failed => this.(failed := elements)
    }

    function Append(stage: Stage, element: Raw): Queue {
      With(stage, Get(stage) + [element])
    }

    function Publish(envelope: Envelope): Queue {
      Append(Pending, Message(envelope))
    }

    /** Claims the oldest pending message. Malformed elements before it move to failed. */
    function Claim(): (Queue, Option<Envelope>)
      decreases |pending|
    {
      if pending == [] then (this, None)
      else match pending[0]
           case Message(envelope) =>
             (Queue(pending[1..], inProgress + [pending[0]], failed), Some(envelope))
           case Malformed(_) => Queue(pending[1..], inProgress, failed + [pending[0]]).Claim()
    }

    /** Removes a claimed element. The result tells whether it was in progress. */
    function Acknowledge(element: Raw): (Queue, bool) {
      if element in inProgress
      then (this.(inProgress := RemoveNewest(inProgress, element)), true)
      else (this, false)
    }

    /** Takes a claimed element out of progress and stores the envelope at the end of `target`. */
    function MoveClaimed(element: Raw, envelope: Envelope, target: Stage): (Queue, bool) {
      var (q, found) := Acknowledge(element);
      (if found then q.Append(target, Message(envelope)) else q, found)
    }

    function Recover(): (Queue, nat) {
      (Queue(inProgress + pending, [], failed), |inProgress|)
    }

    function Republish(limit: nat): (Queue, nat) {
      var n := Min(limit, |failed|);
      (Queue(pending + failed[..n], inProgress, failed[n..]), n)
    }

    function Clear(stage: Stage): (Queue, nat) {
      (With(stage, []), |Get(stage)|)
    }

    function Peek(stage: Stage, first: nat, last: nat): seq<Raw> {
      Window(Get(stage), first, last)
    }
  }

  /** A claim moves the malformed elements before the oldest message to the end of failed, in order,
      and that message to the end of in-progress. Without a message it only moves the malformed. */
  lemma {:induction false} ClaimSplit(q: Queue, malformed: seq<Raw>, rest: seq<Raw>)
    requires q.pending == malformed + rest && forall x | x in malformed :: x.Malformed?
    requires rest != [] ==> rest[0].Message?
    ensures q.Claim() == if rest == [] then (Queue([], q.inProgress, q.failed + malformed), None)
                         else (Queue(rest[1..], q.inProgress + [rest[0]], q.failed + malformed), Some(rest[0].envelope))
    decreases |malformed|
  {
    if malformed == [] {
      assert q.pending == rest && q.failed + malformed == q.failed;
    } else {
      var next := Queue(q.pending[1..], q.inProgress, q.failed + [malformed[0]]);
      assert q.pending[0] == malformed[0] && malformed[0] in malformed && q.Claim() == next.Claim();
      assert next.pending == malformed[1..] + rest;
      ClaimSplit(next, malformed[1..], rest);
      assert next.failed + malformed[1..] == q.failed + malformed;
    }
  }

  /** The elements at positions `first` to `last`, as far as they exist. */
  function Window<T>(s: seq<T>, first: nat, last: nat): seq<T> {
    if first <= last && first < |s| then s[first..Min(last + 1, |s|)] else []
  }

  /** A window has exactly the elements at the positions `first` to `last`, in order. */
  lemma WindowShows<T>(s: seq<T>, first: nat, last: nat)
    ensures var w := Window(s, first, last);
            && (forall k | first <= k <= last && k < |s| :: k - first < |w| && w[k - first] == s[k])
            && (w != [] ==> first + |w| - 1 <= last && first + |w| <= |s|)
  {
  }

  /** A recovery counts what leaves in-progress, and leaves nothing there. */
  lemma RecoverCounts(q: Queue)
    ensures var (q', n) := q.Recover();
            && n == |q.inProgress| - |q'.inProgress| && q'.inProgress == []
            && q'.pending == q.inProgress + q.pending && q'.failed == q.failed
  {
  }

  /** A republish counts what leaves failed, which is the oldest part of it, in order, at the end of
      pending. It moves no more than its limit, and less only if nothing is left in failed. */
  lemma RepublishCounts(q: Queue, limit: nat)
    ensures var (q', n) := q.Republish(limit);
            && n == |q.failed| - |q'.failed| && n <= limit && (n < limit ==> q'.failed == [])
            && |q'.pending| == |q.pending| + n && q.pending <= q'.pending
            && q'.pending[|q.pending|..] + q'.failed == q.failed && q'.inProgress == q.inProgress
  {
  }

  /** A clear counts what leaves its stage, leaves nothing there, and changes no other stage. */
  lemma ClearCounts(q: Queue, stage: Stage)
    ensures var (q', n) := q.Clear(stage);
            && n == |q.Get(stage)| - |q'.Get(stage)| && q'.Get(stage) == []
            && (forall other | other != stage :: q'.Get(other) == q.Get(other))
  {
  }

  function RemoveNewest<T(==)>(s: seq<T>, x: T): seq<T> {
    if s == [] then []
    else if s[|s| - 1] == x then s[..|s| - 1]
    else RemoveNewest(s[..|s| - 1], x) + [s[|s| - 1]]
  }

  /** Removing an element takes out its last occurrence and nothing else. */
  lemma {:induction false} RemoveNewestSplit<T>(before: seq<T>, x: T, after: seq<T>)
    requires x !in after
    ensures RemoveNewest(before + [x] + after, x) == before + after
    decreases |after|
  {
    var s := before + [x] + after;
    if after == [] {
      assert s[..|s| - 1] == before;
    } else {
      var front := after[..|after| - 1];
      assert s[..|s| - 1] == before + [x] + front;
      RemoveNewestSplit(before, x, front);
      assert before + after == before + front + [after[|after| - 1]];
    }
  }
}
