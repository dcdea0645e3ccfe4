/** Which deliveries the processes of the Redis protocol hold, told by what they did. */
module RedisDeliveries {
  import opened Messages
  import opened AbstractQueue
  import opened RedisLists
  import opened RedisProtocol
  import opened RetryPolicy

  predicate IsSettle(command: Command) {
    command == Command.Acknowledge || command == Command.Retry || command == Command.MoveToFailed
    || command == Command.Release
  }

  /** The process lets go of its delivery: a settle is answered, or the process stops. */
  predicate LetsGo(a: Action, pid: Pid) {
    a.pid == pid && (a.command == Crash || (IsSettle(a.command) && a.reply == Arrives))
  }

  /** The element that a claim takes next. */
  function Oldest(lists: Lists): Raw
    requires lists.pending != []
  {
    lists.pending[|lists.pending| - 1]
  }

  /** A claim of the process that brings it a message. */
  predicate Claims(s: State, a: Action, pid: Pid) {
    a == Action(pid, Claim, Arrives) && ProcOf(s, pid) == Idle && s.lists.pending != [] && Oldest(s.lists).Message?
  }

  /** What an action does to the delivery of a process. A settle that gets no answer keeps it, and a
      release has then taken an attempt back. */
  lemma HoldingAfter(s: State, a: Action, pid: Pid)
    ensures var p, q := ProcOf(s, pid), ProcOf(Apply(s, a), pid);
            && (p.Holding? ==>
                  q == if LetsGo(a, pid) then Idle
                       else if a.pid == pid && a.command == Command.Release then
                         Holding(p.element, p.envelope.TakeBackAttempt())
                       else p)
            && (!p.Holding? ==>
                  if Claims(s, a, pid) then q == Holding(Oldest(s.lists), Oldest(s.lists).envelope.CountAttempt())
                  else !q.Holding?)
  {
  }

  /** An element that is no message goes to failed, or stays in progress if its claimer stops. */
  lemma DiscardingAfter(s: State, a: Action, pid: Pid)
    ensures var p, q := ProcOf(s, pid), ProcOf(Apply(s, a), pid);
            && (p.Discarding? ==> q == if a.pid == pid && (a.command == Crash || a.command == Discard) then Idle else p)
            && (p.Idle? ==>
                  if a == Action(pid, Claim, Arrives) && s.lists.pending != [] && Oldest(s.lists).Malformed?
                  then q == Discarding(Oldest(s.lists)) else !q.Discarding?)
  {
  }

  // ---------------------------------------------------------------- over a run

  /** The process claims in action `i` and does not let go of its delivery before action `n`. */
  ghost predicate ClaimedAt(actions: seq<Action>, i: nat, n: nat, pid: Pid)
    requires n <= |actions|
  {
    && i < n && Claims(Run(actions, i), actions[i], pid)
    && forall j | i < j < n :: !LetsGo(actions[j], pid)
  }

  /** The releases of the process since then. None of them was answered. */
  function ReleasesSince(actions: seq<Action>, i: nat, n: nat, pid: Pid): nat
    requires n <= |actions|
  {
    if n <= i + 1 then 0
    else ReleasesSince(actions, i, n - 1, pid)
         + if actions[n - 1].pid == pid && actions[n - 1].command == Command.Release then 1 else 0
  }

  /** The delivery that such a process has. */
  ghost function Delivered(actions: seq<Action>, i: nat, n: nat, pid: Pid): (p: Proc)
    requires n <= |actions| && ClaimedAt(actions, i, n, pid)
    ensures p.Holding?
  {
    var oldest := Oldest(Run(actions, i).lists);
    Holding(oldest, TakeBack(oldest.envelope.CountAttempt(), ReleasesSince(actions, i, n, pid)))
  }

  lemma {:induction false} ClaimHolds(actions: seq<Action>, i: nat, n: nat, pid: Pid)
    requires n <= |actions| && ClaimedAt(actions, i, n, pid)
    ensures ProcOf(Run(actions, n), pid) == Delivered(actions, i, n, pid)
    decreases n
  {
    hide Apply;
    HoldingAfter(Run(actions, n - 1), actions[n - 1], pid);
    if i < n - 1 {
      ClaimHolds(actions, i, n - 1, pid);
    }
  }

  lemma {:induction false} HolderClaimed(actions: seq<Action>, n: nat, pid: Pid) returns (i: nat)
    requires n <= |actions| && ProcOf(Run(actions, n), pid).Holding?
    ensures i < n && ClaimedAt(actions, i, n, pid)
  {
    hide Apply;
    HoldingAfter(Run(actions, n - 1), actions[n - 1], pid);
    if ProcOf(Run(actions, n - 1), pid).Holding? {
      i := HolderClaimed(actions, n - 1, pid);
    } else {
      i := n - 1;
    }
  }

  /** In any run, a process holds a delivery if and only if it claimed a message and since then got
      no answer to a settle and did not stop. It is the element that was oldest at that claim, with
      one attempt more, less one for each release since. */
  lemma HoldsExactlyWhen(actions: seq<Action>, n: nat, pid: Pid)
    requires n <= |actions|
    ensures ProcOf(Run(actions, n), pid).Holding? <==> exists i: nat | i < n :: ClaimedAt(actions, i, n, pid)
    ensures forall i: nat | i < n && ClaimedAt(actions, i, n, pid) ::
              ProcOf(Run(actions, n), pid) == Delivered(actions, i, n, pid)
  {
    hide ClaimedAt;
    if ProcOf(Run(actions, n), pid).Holding? {
      var i := HolderClaimed(actions, n, pid);
      assert i < n && ClaimedAt(actions, i, n, pid);
    }
    forall i: nat | i < n && ClaimedAt(actions, i, n, pid)
      ensures ProcOf(Run(actions, n), pid) == Delivered(actions, i, n, pid)
    {
      ClaimHolds(actions, i, n, pid);
    }
  }
}
