/** A queue consumer of the server, and how it stops (consumers.rs). */
module Consumers {
  import opened Messages
  import opened AbstractQueue
  import opened RetryPolicy
  import opened QueueHandle

  const SHUTDOWN_SETTLE_RETRIES := 3

  /** Everything a consumer meets, as functions of the time: how long each wait takes, what the
      rest of the world makes of the lane during it, and how each claim, command and settle goes.
      The cancel fires at a time of its own. `sleepWins` decides between a cancel and the end of a
      sleep that come together. */
  datatype World = World(
    cancelAt: nat,
    lasts: nat -> nat,
    others: (nat, Queue) -> Queue,
    claimFails: nat -> bool,
    built: nat -> bool,
    result: nat -> CommandResult,
    fault: nat -> Fault,
    sleepWins: nat -> bool)
  {
    /** When a wait that begins at `t` is over. */
    function WakeAt(t: nat): nat {
      t + 1 + lasts(t)
    }

    predicate Cancelled(t: nat) {
      t >= cancelAt
    }

    /** The cancel fires before the sleep that begins at `t`, or ends it. */
    predicate CutShort(t: nat) {
      Cancelled(t) || (Cancelled(WakeAt(t)) && !sleepWins(t))
    }
  }

  datatype End = Done(action: SettleAction) | WasLost | WasRejected | GaveUp

  /** The last settle of a message: what it sent, and the lane before and after it. */
  datatype LastSettle = LastSettle(sent: Delivery, before: Queue, after: Queue)

  /** What a consumer did with one claimed message. The command, if any, returned at `returnedAt`,
      and `tries` holds the time of every settle. */
  datatype Record = Record(
    claimed: Envelope,
    claimedAt: nat,
    checkedAt: nat,
    started: bool,
    returnedAt: nat,
    kind: AttemptKind,
    tries: seq<nat>,
    last: LastSettle,
    end: End,
    endedAt: nat)

  /** No message carries the id of an element that was in progress from the start. */
  ghost predicate NoneOf(s: seq<Raw>, base: seq<Raw>) {
    forall x, y | x in s && y in base && x.Message? :: !y.HasId(x.envelope.id)
  }

  /** How the end of a message shows in the lane. A message that is done was in progress and is
      settled as its action says. A lost one was not in progress, and the lane is as it was. One
      that is given up may have been settled or not. */
  predicate Fate(last: LastSettle, kind: AttemptKind, end: End) {
    var action := ForAttempt(kind, last.sent.envelope);
    match end
    case Done(done) =>
      && done == action
      && last.sent.element in last.before.inProgress
      && last.after == Applied(last.before, last.sent, action).0
    case WasLost => last.sent.element !in last.before.inProgress && last.after == last.before
    case WasRejected => false
    case GaveUp => last.after == last.before || last.after == Applied(last.before, last.sent, action).0
  }

  /** The attempt is what the check, the registry and the command make of it. */
  predicate AttemptIs(w: World, r: Record) {
    if !r.started then r.kind == AttemptKind.Interrupted && r.returnedAt == r.checkedAt
    else
      && (r.kind == Succeeded <==> w.built(r.checkedAt) && w.result(r.returnedAt) == Ok)
      && (r.kind == Unrunnable <==> !w.built(r.checkedAt))
      && (r.kind == AttemptKind.Interrupted
          <==> w.built(r.checkedAt) && w.result(r.returnedAt) == Stopped && w.Cancelled(r.returnedAt))
  }

  /** Every settle but the last met a fault and was followed by a sleep, which the cancel did not
      cut short, or by a pause if the message was interrupted. */
  ghost predicate Repeats(w: World, kind: AttemptKind, tries: seq<nat>) {
    forall i | 0 <= i < |tries| - 1 ::
      && w.fault(tries[i]) != NoFault && tries[i + 1] == w.WakeAt(tries[i])
      && (kind != AttemptKind.Interrupted ==> !w.CutShort(tries[i]))
  }

  lemma RepeatsOnce(w: World, kind: AttemptKind, t: nat)
    ensures Repeats(w, kind, [t])
  {
  }

  lemma RepeatsAgain(w: World, kind: AttemptKind, tries: seq<nat>, t: nat)
    requires tries != [] && Repeats(w, kind, tries)
    requires var last := tries[|tries| - 1];
             w.fault(last) != NoFault && t == w.WakeAt(last) && (kind != AttemptKind.Interrupted ==> !w.CutShort(last))
    ensures Repeats(w, kind, tries + [t])
  {
  }

  /** A consumer gives a message up only after a fault: an interrupted one after its fourth settle,
      and any other one when the cancel cuts a sleep short. */
  ghost predicate EndsBy(w: World, kind: AttemptKind, tries: seq<nat>, end: End, endedAt: nat)
    requires tries != []
  {
    var last := tries[|tries| - 1];
    && (end == GaveUp <==> w.fault(last) != NoFault)
    && (kind == AttemptKind.Interrupted ==> |tries| <= 4 && (end == GaveUp ==> |tries| == 4))
    && (end == GaveUp && kind != AttemptKind.Interrupted ==> w.CutShort(last))
    && endedAt == if end == GaveUp && kind != AttemptKind.Interrupted then w.WakeAt(last) else last
  }

  /** What holds of every record, whatever the world does. */
  ghost predicate RecordOk(r: Record, w: World) {
    && r.claimedAt <= r.checkedAt <= r.returnedAt <= r.endedAt
    // A command starts only after a check that came before the cancel.
    && (r.started <==> !w.Cancelled(r.checkedAt))
    && AttemptIs(w, r)
    // Only the cancel makes a consumer leave a message, or interrupts one.
    && (r.end == GaveUp || r.kind == AttemptKind.Interrupted ==> w.Cancelled(r.endedAt))
    && r.tries != [] && r.tries[0] == r.returnedAt
    && Repeats(w, r.kind, r.tries) && EndsBy(w, r.kind, r.tries, r.end, r.endedAt)
    // Each settle of an interrupted message takes back one attempt more. Every other message keeps
    // the attempt that the claim counted.
    && r.last.sent.envelope == (if r.kind == AttemptKind.Interrupted then TakeBack(r.claimed.CountAttempt(), |r.tries|)
                                else r.claimed.CountAttempt())
    && r.last.sent.element == Message(r.claimed)
    && Fate(r.last, r.kind, r.end)
  }

  lemma GaveUpLate(r: Record, w: World)
    requires RecordOk(r, w)
    ensures r.end == GaveUp ==> w.Cancelled(r.endedAt)
  {
  }

  /** What one turn of the consumer did: a failed claim at `at`, one that found nothing, or one
      whose message was over at `until`. */
  datatype Turn =
    | ClaimFailed(at: nat, until: nat)
    | NothingPending(at: nat, until: nat)
    | Processed(at: nat, until: nat)

  /** When turn `i` begins. */
  function BeginsAt(start: nat, turns: seq<Turn>, i: nat): nat
    requires i <= |turns|
  {
    if i == 0 then start else turns[i - 1].until
  }

  ghost predicate TurnOk(w: World, begin: nat, t: Turn) {
    && t.at == w.WakeAt(begin)
    && (t.ClaimFailed? <==> w.claimFails(t.at))
    && (t.ClaimFailed? ==> t.until == w.WakeAt(t.at))
    && (t.NothingPending? ==> t.until == t.at)
  }

  /** The cancel cut the sleep after a failed claim short. */
  predicate Leaves(w: World, t: Turn) {
    t.ClaimFailed? && w.CutShort(t.at)
  }

  /** The consumer waits and claims until the cancel fires, and sleeps after a failed claim. */
  ghost predicate TurnsOk(w: World, start: nat, turns: seq<Turn>) {
    forall i: nat | i < |turns| ::
      && TurnOk(w, BeginsAt(start, turns, i), turns[i])
      && !w.Cancelled(BeginsAt(start, turns, i))
      && (i < |turns| - 1 ==> !Leaves(w, turns[i]))
  }

  lemma OneMoreTurn(w: World, start: nat, turns: seq<Turn>, t: Turn)
    requires TurnsOk(w, start, turns) && TurnOk(w, BeginsAt(start, turns, |turns|), t)
    requires !w.Cancelled(BeginsAt(start, turns, |turns|)) && (turns != [] ==> !Leaves(w, turns[|turns| - 1]))
    ensures TurnsOk(w, start, turns + [t]) && BeginsAt(start, turns + [t], |turns| + 1) == t.until
  {
    hide TurnOk;
    hide Leaves;
    hide World.Cancelled;
    var all := turns + [t];
    forall i: nat | i < |all|
      ensures TurnOk(w, BeginsAt(start, all, i), all[i]) && !w.Cancelled(BeginsAt(start, all, i))
      ensures i < |all| - 1 ==> !Leaves(w, all[i])
    {
      assert BeginsAt(start, all, i) == BeginsAt(start, turns, i);
    }
  }

  lemma NoTurns(w: World, start: nat)
    ensures TurnsOk(w, start, [])
  {
  }

  // ---------------------------------------------------------------- one delivery

  /** A delivery of this lane, whose id no element of `base` carries. */
  ghost predicate Deliverable(handle: Handle, d: Delivery, base: seq<Raw>) {
    handle.Owns(d) && d.element.HasId(d.envelope.id) && NoneOf([d.element], base)
  }

  /** Where the lane stands after a settle of `d` that reported `r`. An interrupted settle may
      have taken the message out of progress or not. */
  ghost predicate Pursued(handle: Handle, q: Queue, base: seq<Raw>, d: Delivery, r: SettleResult) {
    && NoneOf(q.pending, base)
    && match r
       case Settled(_) => q.inProgress == base
       case NotSettled(Lost) => q.inProgress == base
       case NotSettled(Rejected(_)) => false
       case NotSettled(Interrupted(d')) =>
         && d'.element == d.element && Deliverable(handle, d', base)
         && (q.inProgress == base || q.inProgress == base + [d.element])
  }

  lemma NotInBase(d: Delivery, base: seq<Raw>)
    requires d.element.HasId(d.envelope.id) && NoneOf([d.element], base)
    ensures d.element !in base
  {
    assert d.element in [d.element];
  }

  lemma SettlePursues(handle: Handle, q: Queue, base: seq<Raw>, d: Delivery, action: SettleAction, fault: Fault)
    requires Deliverable(handle, d, base) && NoneOf(q.pending, base)
    requires q.inProgress == base || q.inProgress == base + [d.element]
    ensures var (q', r) := handle.Outcome(q, d, action, fault);
            Pursued(handle, q', base, d, r)
            && (r.Settled? ==> r.action == action)
            && (r.NotSettled? && r.error.Interrupted? ==> r.error.delivery == Carried(d, action))
  {
    NotInBase(d, base);
    RemoveLast(base, d.element);
    assert d.element in [d.element];
    assert NoneOf([Message(Carried(d, action).envelope)], base);
  }

  /** A settle of a delivery of this lane, before the consumer decides whether to settle again. */
  ghost predicate Tried(d: Delivery, kind: AttemptKind, settles: nat, last: LastSettle, r: SettleResult, fault: Fault) {
    && settles >= 1 && last.sent.element == d.element
    && last.sent.envelope == (if kind == AttemptKind.Interrupted then TakeBack(d.envelope, settles) else d.envelope)
    && (r.NotSettled? && r.error.Interrupted? <==> fault != NoFault)
    && match r
       case Settled(action) => Fate(last, kind, Done(action))
       case NotSettled(Lost) => Fate(last, kind, WasLost)
       case NotSettled(Rejected(_)) => false
       case NotSettled(Interrupted(d')) => Fate(last, kind, GaveUp) && d' == last.sent
  }

  lemma SettleTried(handle: Handle, q: Queue, d: Delivery, kind: AttemptKind, settles: nat, again: Delivery,
                    fault: Fault)
    requires handle.Owns(again) && again.element == d.element
    requires again.envelope == if kind == AttemptKind.Interrupted then TakeBack(d.envelope, settles) else d.envelope
    ensures var action := ForAttempt(kind, again.envelope);
            var (q', r) := handle.Outcome(q, again, action, fault);
            && Tried(d, kind, settles + 1, LastSettle(Carried(again, action), q, q'), r, fault)
            && (r.NotSettled? && r.error.Interrupted? ==> handle.Owns(r.error.delivery))
  {
  }

  class Consumer {
    const handle: Handle
    const world: World
    var now: nat
    ghost var log: seq<Record>
    ghost var turns: seq<Turn>

    constructor (handle: Handle, world: World)
      ensures this.handle == handle && this.world == world && log == [] && turns == []
    {
      this.handle, this.world, now, log, turns := handle, world, 0, [], [];
    }

    predicate Cancelled()
      reads this
    {
      world.Cancelled(now)
    }

    /** The others leave in-progress alone, and bring no message with an id of `base`. */
    ghost predicate Gentle(base: seq<Raw>) {
      forall t, q: Queue ::
        && world.others(t, q).inProgress == q.inProgress
        && (NoneOf(q.pending, base) ==> NoneOf(world.others(t, q).pending, base))
    }

    /** Time passes, and the lane changes in any way. */
    method Wait(ghost base: seq<Raw>)
      modifies this`now, handle
      ensures now == world.WakeAt(old(now))
      ensures handle.queue == world.others(old(now), old(handle.queue))
      ensures Gentle(base) && old(NoneOf(handle.queue.pending, base)) ==>
                NoneOf(handle.queue.pending, base) && handle.queue.inProgress == old(handle.queue.inProgress)
    {
      handle.queue := world.others(now, handle.queue);
      now := now + 1 + world.lasts(now);
    }

    /** A sleep that the cancel can cut short. The result tells whether it did. */
    method SleepOrCancel(ghost base: seq<Raw>) returns (cancelled: bool)
      modifies this`now, handle
      ensures now == world.WakeAt(old(now))
      ensures handle.queue == world.others(old(now), old(handle.queue))
      ensures Gentle(base) && old(NoneOf(handle.queue.pending, base)) ==>
                NoneOf(handle.queue.pending, base) && handle.queue.inProgress == old(handle.queue.inProgress)
      ensures cancelled <==> world.CutShort(old(now))
      ensures cancelled ==> Cancelled()
      ensures old(Cancelled()) ==> cancelled
    {
      var fired := Cancelled();
      var asleep := now;
      Wait(base);
      cancelled := fired || (Cancelled() && !world.sleepWins(asleep));
    }

    /** Settles again after an interrupted settle, until the settle succeeds or the server stops.
        `gentle` says that the others leave in-progress alone. */
    method SettleUntilDone(ghost base: seq<Raw>, ghost gentle: bool, d: Delivery, kind: AttemptKind,
                           first: SettleResult, ghost tried: LastSettle)
      returns (end: End, ghost tries: seq<nat>, ghost last: LastSettle)
      requires handle.Owns(d) && Tried(d, kind, 1, tried, first, world.fault(now))
      requires first.NotSettled? && first.error.Interrupted? ==> handle.Owns(first.error.delivery)
      requires kind == AttemptKind.Interrupted ==> Cancelled()
      requires gentle ==> Gentle(base) && Deliverable(handle, d, base) && Pursued(handle, handle.queue, base, d, first)
      modifies this`now, handle
      ensures now >= old(now) && (end == GaveUp ==> Cancelled())
      ensures tries != [] && tries[0] == old(now)
      ensures Repeats(world, kind, tries) && EndsBy(world, kind, tries, end, now)
      ensures last.sent.element == d.element && Fate(last, kind, end)
      ensures last.sent.envelope
           == (if kind == AttemptKind.Interrupted then TakeBack(d.envelope, |tries|) else d.envelope)
      ensures gentle ==>
                && NoneOf(handle.queue.pending, base)
                && (handle.queue.inProgress == base || (end == GaveUp && handle.queue.inProgress == base + [d.element]))
    {
      hide NoneOf;
      hide Deliverable;
      hide Fate;
      hide Gentle;
      hide Repeats;
      var settled, shutdownRetries := first, 0;
      tries, last := [now], tried;
      RepeatsOnce(world, kind, now);
      while true
        invariant now >= old(now) && (kind == AttemptKind.Interrupted ==> Cancelled())
        invariant tries != [] && tries[0] == old(now) && tries[|tries| - 1] == now && Repeats(world, kind, tries)
        invariant Tried(d, kind, |tries|, last, settled, world.fault(now))
        invariant settled.NotSettled? && settled.error.Interrupted? ==> handle.Owns(settled.error.delivery)
        invariant gentle ==> Pursued(handle, handle.queue, base, d, settled)
        invariant kind == AttemptKind.Interrupted ==> shutdownRetries + 1 == |tries| <= SHUTDOWN_SETTLE_RETRIES + 1
        decreases if kind == AttemptKind.Interrupted then SHUTDOWN_SETTLE_RETRIES + 1 - |tries|
                  else if now < world.cancelAt then world.cancelAt - now else 0
      {
        match settled {
          case Settled(action) =>
            return Done(action), tries, last;
          case NotSettled(Lost) =>
            return WasLost, tries, last;
          case NotSettled(Rejected(_)) =>
            return WasRejected, tries, last;
          case NotSettled(Interrupted(again)) =>
            var giveUp;
            if kind == AttemptKind.Interrupted {
              shutdownRetries := shutdownRetries + 1;
              giveUp := shutdownRetries > SHUTDOWN_SETTLE_RETRIES;
              if !giveUp {
                Wait(base);
              }
            } else {
              giveUp := SleepOrCancel(base);
            }
            if giveUp {
              return GaveUp, tries, last;
            }
            RepeatsAgain(world, kind, tries, now);
            ghost var before := handle.queue;
            if gentle {
              SettlePursues(handle, before, base, again, ForAttempt(kind, again.envelope), world.fault(now));
            }
            SettleTried(handle, before, d, kind, |tries|, again, world.fault(now));
            settled := handle.Settle(again, kind, world.fault(now));
            last := LastSettle(Carried(again, ForAttempt(kind, again.envelope)), before, handle.queue);
            tries := tries + [now];
        }
      }
    }

    /** The run of a command, which may take any time. A message that arrives after the cancel is
        not run. */
    method Attempt(ghost base: seq<Raw>) returns (started: bool, kind: AttemptKind)
      modifies this`now, handle
      ensures now >= old(now) && (started <==> !old(Cancelled()))
      ensures kind == AttemptKind.Interrupted ==> Cancelled()
      ensures forall r: Record | (r.started, r.kind, r.checkedAt, r.returnedAt) == (started, kind, old(now), now) ::
                AttemptIs(world, r)
      ensures Gentle(base) && old(NoneOf(handle.queue.pending, base)) ==>
                NoneOf(handle.queue.pending, base) && handle.queue.inProgress == old(handle.queue.inProgress)
    {
      started := !Cancelled();
      var built := world.built(now);
      if started && built {
        Wait(base);
      }
      kind := AttemptOf(!started, built, world.result(now), Cancelled());
    }

    /** Runs and settles one delivery. The cancel is checked before the run, and again when a
        command reports that it was stopped. */
    method Process(ghost base: seq<Raw>, ghost gentle: bool, d: Delivery)
      requires handle.Owns(d) && d.element.Message?
      requires d.envelope == d.element.envelope.CountAttempt()
      requires gentle ==> Gentle(base) && Deliverable(handle, d, base)
      requires gentle ==> NoneOf(handle.queue.pending, base) && handle.queue.inProgress == base + [d.element]
      modifies this`now, this`log, handle
      ensures now >= old(now)
      ensures |log| == |old(log)| + 1 && log == old(log) + [log[|old(log)|]]
      ensures var r := log[|old(log)|];
              && RecordOk(r, world)
              && r.claimed == d.element.envelope && r.claimedAt == old(now) && r.endedAt == now
              && (gentle ==>
                    && NoneOf(handle.queue.pending, base)
                    && (handle.queue.inProgress == base
                        || (r.end == GaveUp && handle.queue.inProgress == base + [d.element])))
    {
      hide NoneOf;
      hide Deliverable;
      hide Gentle;
      hide Fate;
      hide AttemptIs;
      hide Repeats;
      hide EndsBy;
      ghost var checkedAt := now;
      var started, kind := Attempt(base);
      ghost var before, returnedAt := handle.queue, now;
      if gentle {
        SettlePursues(handle, before, base, d, ForAttempt(kind, d.envelope), world.fault(now));
      }
      SettleTried(handle, before, d, kind, 0, d, world.fault(now));
      var settled := handle.Settle(d, kind, world.fault(now));
      ghost var end, tries, last;
      end, tries, last := SettleUntilDone(base, gentle, d, kind, settled,
                                          LastSettle(Carried(d, ForAttempt(kind, d.envelope)), before, handle.queue));
      log := log + [Record(d.element.envelope, checkedAt, checkedAt, started, returnedAt, kind, tries, last, end, now)];
    }

    /** One turn: a wait for a message, a claim, and the processing of what it found. */
    method TakeTurn(ghost base: seq<Raw>, ghost gentle: bool) returns (cancelled: bool)
      requires gentle ==> Gentle(base) && NoneOf(handle.queue.pending, base) && handle.queue.inProgress == base
      modifies this`now, this`log, this`turns, handle
      ensures now > old(now)
      ensures |turns| == |old(turns)| + 1 && turns == old(turns) + [turns[|old(turns)|]]
      ensures var t := turns[|old(turns)|];
              && TurnOk(world, old(now), t) && t.until == now && (cancelled <==> Leaves(world, t))
              && (cancelled ==> Cancelled())
              && (if !t.Processed? then log == old(log)
                  else
                    && |log| == |old(log)| + 1 && log == old(log) + [log[|old(log)|]]
                    && var r := log[|old(log)|];
                       RecordOk(r, world) && r.claimedAt == t.at && r.endedAt == now)
      ensures gentle ==>
                && NoneOf(handle.queue.pending, base)
                && (handle.queue.inProgress == base
                    || (|log| > |old(log)| && log[|old(log)|].end == GaveUp
                        && handle.queue.inProgress == base + [Message(log[|old(log)|].claimed)]))
    {
      hide NoneOf;
      hide Gentle;
      hide RecordOk;
      hide Queue.Claim;
      cancelled := false;
      Wait(base);
      ghost var at := now;
      if world.claimFails(now) {
        cancelled := SleepOrCancel(base);
        turns := turns + [ClaimFailed(at, now)];
      } else {
        if gentle {
          ClaimApart(handle.queue, base);
        }
        var claimed := handle.Dequeue();
        if claimed.Some? {
          Process(base, gentle, claimed.value);
          turns := turns + [Processed(at, now)];
        } else {
          turns := turns + [NothingPending(at, now)];
        }
      }
    }

    /** The consumer from its start to its stop, beside any changes that others make to the lane. */
    method Run()
      requires log == [] && turns == []
      modifies this`now, this`log, this`turns, handle
      ensures Cancelled() && TurnsOk(world, old(now), turns)
      ensures forall r | r in log :: RecordOk(r, world)
      // Everything but the last message is over before the cancel, so at most one message is
      // claimed, interrupted or given up after it.
      ensures forall i | 0 <= i < |log| - 1 :: !world.Cancelled(log[i].endedAt) && log[i].end != GaveUp
      // If the others leave in-progress alone, it is as it was but for that message, and for that
      // only if the consumer gave it up.
      ensures var base := old(handle.queue.inProgress);
              Gentle(base) && old(NoneOf(handle.queue.pending, handle.queue.inProgress)) ==>
                || handle.queue.inProgress == base
                || (log != [] && var last := log[|log| - 1];
                    last.end == GaveUp && handle.queue.inProgress == base + [Message(last.claimed)])
    {
      hide NoneOf;
      hide Gentle;
      hide RecordOk;
      hide TurnsOk;
      hide TurnOk;
      hide Leaves;
      ghost var base, start := handle.queue.inProgress, now;
      ghost var gentle := Gentle(base) && NoneOf(handle.queue.pending, base);
      NoTurns(world, start);
      while !Cancelled()
        invariant TurnsOk(world, start, turns) && now == BeginsAt(start, turns, |turns|)
        invariant turns != [] ==> !Leaves(world, turns[|turns| - 1])
        invariant gentle ==> Gentle(base) && NoneOf(handle.queue.pending, base)
        invariant forall r | r in log :: RecordOk(r, world) && r.endedAt <= now
        invariant forall i | 0 <= i < |log| - 1 :: !world.Cancelled(log[i].endedAt)
        invariant gentle ==>
                    || handle.queue.inProgress == base
                    || (log != [] && var last := log[|log| - 1];
                        last.end == GaveUp && handle.queue.inProgress == base + [Message(last.claimed)])
        decreases if now < world.cancelAt then world.cancelAt - now else 0
      {
        if log != [] {
          assert log[|log| - 1] in log;
          GaveUpLate(log[|log| - 1], world);
        }
        ghost var before := turns;
        var cancelled := TakeTurn(base, gentle);
        OneMoreTurn(world, start, before, turns[|before|]);
        if cancelled {
          break;
        }
      }
      forall i | 0 <= i < |log| ensures log[i].end == GaveUp ==> world.Cancelled(log[i].endedAt) {
        assert log[i] in log;
        GaveUpLate(log[i], world);
      }
    }
  }

  /** A claim keeps the ids of pending apart from the others, and gives a delivery apart too. */
  lemma {:induction false} ClaimApart(q: Queue, base: seq<Raw>)
    requires NoneOf(q.pending, base)
    ensures NoneOf(q.Claim().0.pending, base)
    ensures match q.Claim().1
            case None => q.Claim().0.inProgress == q.inProgress
            case Some(e) => NoneOf([Message(e)], base) && q.Claim().0.inProgress == q.inProgress + [Message(e)]
    decreases |q.pending|
  {
    if q.pending != [] && q.pending[0].Malformed? {
      ClaimApart(Queue(q.pending[1..], q.inProgress, q.failed + [q.pending[0]]), base);
    }
  }
}
