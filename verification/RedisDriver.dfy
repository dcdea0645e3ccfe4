/** The Redis driver of `redis/mod.rs` and its two scripts, refining AbstractQueue. */
module RedisDriver {
  import opened Integers
  import opened Messages
  import opened AbstractQueue
  import opened RedisLists

  datatype RedisDelivery = RedisDelivery(element: Raw, envelope: Envelope)

  const BULK_MOVE_BATCH_SIZE := 1000

  /** `moved` elements have moved, one after the other. */
  ghost predicate MovedSoFar(start: Lists, now: Lists, source: Stage, destination: Stage, from: End, to: End,
                             moved: nat) {
    && moved <= |start.Get(source)|
    && |now.Get(source)| == |start.Get(source)| - moved
    && now == Moves(start, source, destination, from, to, moved)
  }

  lemma MovedNone(start: Lists, source: Stage, destination: Stage, from: End, to: End)
    ensures MovedSoFar(start, start, source, destination, from, to, 0)
  {
  }

  lemma MovedMore(start: Lists, now: Lists, source: Stage, destination: Stage, from: End, to: End, moved: nat,
                  count: nat)
    requires source != destination && MovedSoFar(start, now, source, destination, from, to, moved)
    requires count <= |now.Get(source)|
    ensures Moves(now, source, destination, from, to, count)
         == Moves(start, source, destination, from, to, moved + count)
  {
    MovesAdd(start, source, destination, from, to, moved, count);
  }

  lemma MovedOneMore(start: Lists, now: Lists, source: Stage, destination: Stage, from: End, to: End, moved: nat)
    requires source != destination && MovedSoFar(start, now, source, destination, from, to, moved)
    requires |now.Get(source)| > 0
    ensures MovedSoFar(start, Moved(now, source, destination, from, to), source, destination, from, to, moved + 1)
  {
    MovesAdd(start, source, destination, from, to, moved, 1);
    assert Moves(now, source, destination, from, to, 1) == Moved(now, source, destination, from, to);
    MovedParts(now, source, destination, from, to);
  }

  /** The server side: list commands, and the two scripts, each of which runs without
      interruption (scripts.rs). */
  class RedisServer {
    var lists: Lists

    constructor ()
      ensures lists == Lists([], [], [])
    {
      lists := Lists([], [], []);
    }

    method LPush(key: Stage, x: Raw)
      modifies this
      ensures lists == old(lists).Put(key, [x] + old(lists).Get(key))
    {
      lists := lists.Put(key, Push(lists.Get(key), Left, x));
    }

    method LMove(source: Stage, destination: Stage, from: End, to: End) returns (x: Option<Raw>)
      modifies this
      ensures |old(lists).Get(source)| == 0 ==> x == None && lists == old(lists)
      ensures |old(lists).Get(source)| > 0 ==>
                && x == Some(Peeked(old(lists).Get(source), from))
                && lists == Moved(old(lists), source, destination, from, to)
    {
      if |lists.Get(source)| == 0 {
        return None;
      }
      x := Some(Peeked(lists.Get(source), from));
      lists := Moved(lists, source, destination, from, to);
    }

    method LRem(key: Stage, x: Raw) returns (removed: nat)
      modifies this
      ensures removed == if x in old(lists).Get(key) then 1 else 0
      ensures lists == if removed == 1 then old(lists).Put(key, RemoveFirst(old(lists).Get(key), x)) else old(lists)
    {
      if x in lists.Get(key) {
        lists := lists.Put(key, RemoveFirst(lists.Get(key), x));
        return 1;
      }
      return 0;
    }

    /** MOVE_IF_PRESENT. */
    method MoveIfPresent(source: Stage, destination: Stage, element: Raw, replacement: Raw) returns (moved: nat)
      modifies this
      ensures moved == if element in old(lists).Get(source) then 1 else 0
      ensures moved == 0 ==> lists == old(lists)
      ensures moved == 1 ==>
                var removed := old(lists).Put(source, RemoveFirst(old(lists).Get(source), element));
                lists == removed.Put(destination, [replacement] + removed.Get(destination))
    {
      var removed := LRem(source, element);
      if removed == 1 {
        LPush(destination, replacement);
        return 1;
      }
      return 0;
    }

    /** BULK_MOVE. */
    method BulkMove(source: Stage, destination: Stage, limit: nat, from: End, to: End) returns (moved: nat)
      requires source != destination
      modifies this
      ensures moved == Min(limit, |old(lists).Get(source)|)
      ensures lists == Moves(old(lists), source, destination, from, to, moved)
      ensures |lists.Get(source)| == |old(lists).Get(source)| - moved
    {
      moved := 0;
      ghost var start := lists;
      while moved < limit
        invariant moved <= limit && MovedSoFar(start, lists, source, destination, from, to, moved)
      {
        ghost var now := lists;
        var x := LMove(source, destination, from, to);
        if x.None? {
          break;
        }
        MovedOneMore(start, now, source, destination, from, to, moved);
        moved := moved + 1;
      }
    }
  }

  class RedisDriver {
    const server: RedisServer

    constructor (server: RedisServer)
      ensures this.server == server
    {
      this.server := server;
    }

    ghost function View(): Queue
      reads server
    {
      ViewOf(server.lists)
    }

    method Publish(envelope: Envelope)
      modifies server
      ensures View() == old(View()).Publish(envelope)
    {
      Insert(Message(envelope));
    }

    /** Any element pushed to pending, such as one that another client wrote. */
    method Insert(element: Raw)
      modifies server
      ensures View() == old(View()).Append(Pending, element)
    {
      PushShows(server.lists.pending, element);
      server.LPush(Pending, element);
    }

    /** Claims the oldest pending element, and moves the unreadable ones before it to failed. */
    method Dequeue() returns (delivery: Option<RedisDelivery>)
      modifies server
      ensures View() == old(View()).Claim().0
      ensures match old(View()).Claim().1
              case None => delivery == None
              case Some(stored) => delivery == Some(RedisDelivery(Message(stored), stored.CountAttempt()))
    {
      while true
        invariant View().Claim() == old(View()).Claim()
        decreases |server.lists.pending|
      {
        ghost var before := server.lists;
        var claimed := server.LMove(Pending, InProgress, Right, Left);
        if claimed.None? {
          return None;
        }
        ClaimShows(before);
        var element := claimed.value;
        match element {
          case Message(envelope) =>
            return Some(RedisDelivery(element, envelope.CountAttempt()));
          case Malformed(_) =>
            DiscardShows(before);
            var moved := server.MoveIfPresent(InProgress, Failed, element, element);
        }
      }
    }

    method Acknowledge(element: Raw) returns (found: bool)
      modifies server
      ensures (View(), found) == old(View()).Acknowledge(element)
    {
      ReverseMembers(server.lists.inProgress);
      RemoveFirstShows(server.lists.inProgress, element);
      var removed := server.LRem(InProgress, element);
      found := removed == 1;
    }

    method MoveClaimed(element: Raw, envelope: Envelope, target: Stage) returns (found: bool)
      requires target != InProgress
      modifies server
      ensures (View(), found) == old(View()).MoveClaimed(element, envelope, target)
    {
      ReverseMembers(server.lists.inProgress);
      RemoveFirstShows(server.lists.inProgress, element);
      PushShows(server.lists.Get(target), Message(envelope));
      var moved := server.MoveIfPresent(InProgress, target, element, Message(envelope));
      found := moved == 1;
    }

    method Recover() returns (moved: nat)
      modifies server
      ensures |old(View()).inProgress| <= USIZE_MAX ==> (View(), moved) == old(View()).Recover()
      ensures |old(View()).inProgress| <= USIZE_MAX ==> moved == |old(View()).inProgress| && View().inProgress == []
    {
      RecoverMoves(server.lists);
      ReverseMembers(server.lists.inProgress);
      moved := BulkMove(InProgress, Pending, Left, Right, USIZE_MAX, BULK_MOVE_BATCH_SIZE, _ => None);
    }

    method RepublishFailed(limit: nat) returns (moved: nat)
      modifies server
      ensures (View(), moved) == old(View()).Republish(limit)
      ensures moved == |old(View()).failed| - |View().failed| && moved <= limit
      ensures moved < limit ==> View().failed == []
    {
      RepublishCounts(View(), limit);
      ReverseMembers(server.lists.failed);
      RepublishMoves(server.lists, Min(limit, |server.lists.failed|));
      moved := BulkMove(Failed, Pending, Right, Left, limit, BULK_MOVE_BATCH_SIZE, _ => None);
    }

    /** Runs the script in batches until a batch comes back short. Before the i-th batch other
        clients may have changed the lists to `others(i)`. Without them, the batches are one move
        of `limit` elements, whatever the batch size. With them, the call still ends, moves no
        more than `limit`, and stops early only with the source empty. */
    method BulkMove(source: Stage, destination: Stage, from: End, to: End, limit: nat, batchSize: nat,
                    others: nat -> Option<Lists>) returns (moved: nat)
      requires source != destination && batchSize > 0
      modifies server
      ensures moved <= limit
      ensures moved < limit ==> |server.lists.Get(source)| == 0
      ensures (forall i :: others(i) == None) ==>
                && moved == Min(limit, |old(server.lists).Get(source)|)
                && server.lists == Moves(old(server.lists), source, destination, from, to, moved)
    {
      hide Moves;
      hide Lists.Get;
      moved := 0;
      ghost var start, alone := server.lists, forall i :: others(i) == None;
      MovedNone(start, source, destination, from, to);
      var i := 0;
      while moved < limit
        invariant moved <= limit
        invariant alone ==> MovedSoFar(start, server.lists, source, destination, from, to, moved)
        decreases limit - moved
      {
        var batch := Min(limit - moved, batchSize);
        ghost var before := server.lists;
        var count := Batch(source, destination, from, to, batch, others(i));
        if alone {
          MovedMore(start, before, source, destination, from, to, moved, count);
        }
        i, moved := i + 1, moved + count;
        if count < batch {
          break;
        }
      }
    }

    /** One run of the script, after what another client did. */
    method Batch(source: Stage, destination: Stage, from: End, to: End, batch: nat, other: Option<Lists>)
      returns (count: nat)
      requires source != destination
      modifies server
      ensures count <= batch && (count < batch ==> |server.lists.Get(source)| == 0)
      ensures other == None ==>
                && count <= |old(server.lists).Get(source)|
                && server.lists == Moves(old(server.lists), source, destination, from, to, count)
                && |server.lists.Get(source)| == |old(server.lists).Get(source)| - count
    {
      match other {
        case None =>
        case Some(lists) => server.lists := lists;
      }
      count := server.BulkMove(source, destination, batch, from, to);
    }

    method Clear(stage: Stage) returns (removed: nat)
      modifies server
      ensures (View(), removed) == old(View()).Clear(stage)
      ensures removed == |old(View()).Get(stage)| && View().Get(stage) == []
    {
      ReverseMembers(server.lists.Get(stage));
      removed := |server.lists.Get(stage)|;
      server.lists := server.lists.Put(stage, []);
    }

    /** The part of a stage that the range selects, position 0 being the next to be claimed. */
    method Peek(stage: Stage, first: usize, last: usize) returns (messages: seq<Raw>)
      ensures first <= last ==> messages == View().Peek(stage, Min(first, INDEX_LIMIT), Min(last, INDEX_LIMIT))
      ensures first <= last && (last <= INDEX_LIMIT || |View().Get(stage)| <= INDEX_LIMIT) ==>
                messages == View().Peek(stage, first, last)
    {
      if first <= last {
        PeekClamped(server.lists.Get(stage), first, last);
        PeekShows(server.lists.Get(stage), first, last);
      }
      var elements := Range(server.lists.Get(stage), -(Min(last, INDEX_LIMIT) + 1), -(Min(first, INDEX_LIMIT) + 1));
      messages := Reverse(elements);
    }

    method Lengths() returns (pending: nat, inProgress: nat, failed: nat)
      ensures pending == |View().pending| && inProgress == |View().inProgress| && failed == |View().failed|
    {
      ReverseMembers(server.lists.pending);
      ReverseMembers(server.lists.inProgress);
      ReverseMembers(server.lists.failed);
      pending, inProgress, failed := |server.lists.pending|, |server.lists.inProgress|, |server.lists.failed|;
    }
  }

  lemma ClaimShows(lists: Lists)
    requires lists.pending != []
    ensures var q, x := ViewOf(lists), Peeked(lists.pending, Right);
            && q.pending != [] && q.pending[0] == x
            && ViewOf(Moved(lists, Pending, InProgress, Right, Left))
               == Queue(q.pending[1..], q.inProgress + [x], q.failed)
  {
    PopShows(lists.pending);
    PushShows(lists.inProgress, Peeked(lists.pending, Right));
  }

  /** The element that was just claimed is the newest in progress, so LREM finds it first. */
  lemma DiscardShows(lists: Lists)
    requires lists.pending != []
    ensures var q, x := ViewOf(lists), Peeked(lists.pending, Right);
            var claimed := Moved(lists, Pending, InProgress, Right, Left);
            && x in claimed.inProgress
            && RemoveFirst(claimed.inProgress, x) == lists.inProgress
            && q.pending != []
            && ViewOf(Lists(claimed.pending, lists.inProgress, [x] + claimed.failed))
               == Queue(q.pending[1..], q.inProgress, q.failed + [x])
  {
    var x := Peeked(lists.pending, Right);
    PopShows(lists.pending);
    PushShows(lists.failed, x);
    assert ([x] + lists.inProgress)[1..] == lists.inProgress;
  }
}
