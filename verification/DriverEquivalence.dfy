/** Both drivers give the same answers. A lane on files and a lane on Redis go through the same
    calls, and each call gives the reply of the abstract queue on both. */
module DriverEquivalence {
  import opened Integers
  import opened Messages
  import opened Disk
  import opened AbstractQueue
  import opened Directories
  import opened FileStoreEffects
  import F = FileStore
  import R = RedisDriver
  import opened RedisLists
  import SortedNames
  import opened Conservation
  import opened QueueCalls

  const NO_FAULTS := SettleFaults(false, false, false, false)

  // ---------------------------------------------------------------- deliveries on both sides

  /** One delivery as the abstract lane, the file driver and the Redis driver see it. It is in
      progress on all three or on none. */
  ghost predicate LinkedAt(s: System, d: Dirs, next: Name, h: Held, f: F.FileDelivery, r: R.RedisDelivery) {
    && r == R.RedisDelivery(h.element, h.envelope)
    && f.envelope == h.envelope
    && f.name < next && f.name !in d.pending
    && (h.element in s.queue.inProgress <==> f.name in d.inProgress)
    && (f.name in d.inProgress ==> d.inProgress[f.name] == h.element)
  }

  ghost predicate Linked(s: System, d: Dirs, next: Name, fs: seq<F.FileDelivery>, rs: seq<R.RedisDelivery>) {
    && |fs| == |rs| == |s.held|
    && (forall k | 0 <= k < |s.held| :: LinkedAt(s, d, next, s.held[k], fs[k], rs[k]))
    && (forall j, k | 0 <= j < k < |fs| :: fs[j].name != fs[k].name)
  }

  lemma LinkedQuiet(s: System, d: Dirs, next: Name, fs: seq<F.FileDelivery>, rs: seq<R.RedisDelivery>,
                    s': System, d': Dirs, next': Name)
    requires Linked(s, d, next, fs, rs)
    requires s'.held == s.held && s'.queue.inProgress == s.queue.inProgress
    requires d'.inProgress == d.inProgress && NamesNew(d, next, d', next')
    ensures Linked(s', d', next', fs, rs)
  {
    forall k | 0 <= k < |s'.held| ensures LinkedAt(s', d', next', s'.held[k], fs[k], rs[k]) {
      assert LinkedAt(s, d, next, s.held[k], fs[k], rs[k]);
    }
  }

  lemma LinkedClaim(s: System, d: Dirs, next: Name, fs: seq<F.FileDelivery>, rs: seq<R.RedisDelivery>,
                    e: Envelope, name: Name, d': Dirs, next': Name)
    requires IdsOk(s) && Ordered(d, next) && Linked(s, d, next, fs, rs) && NamesNew(d, next, d', next')
    requires s.queue.Claim().1 == Some(e) && Message(e) in s.queue.pending
    requires name in d.pending && name !in d'.pending && name !in d.inProgress
    requires d'.inProgress == d.inProgress[name := Message(e)]
    ensures var counted := e.CountAttempt();
            Linked(Step(s, Dequeue).0, d', next', fs + [F.FileDelivery(name, counted)],
                   rs + [R.RedisDelivery(Message(e), counted)])
  {
    var s', counted := Step(s, Dequeue).0, e.CountAttempt();
    var fs', rs' := fs + [F.FileDelivery(name, counted)], rs + [R.RedisDelivery(Message(e), counted)];
    ClaimTakes(s.queue);
    forall k | 0 <= k < |s'.held| ensures LinkedAt(s', d', next', s'.held[k], fs'[k], rs'[k]) {
      if k < |s.held| {
        assert LinkedAt(s, d, next, s.held[k], fs[k], rs[k]);
        ClaimedIsNew(s, e, k);
        assert HeldOk(s, s.held[k]);
      }
    }
  }

  /** A claimed file and a claimed element are the same message: taking out the file takes out
      the newest equal element. */
  lemma TakenIsNewest(s: System, d: Dirs, next: Name, fs: seq<F.FileDelivery>, rs: seq<R.RedisDelivery>, k: nat)
    requires IdsOk(s) && Linked(s, d, next, fs, rs) && d.settling == map[] && k < |s.held|
    requires Rank(d.Claimed(), fs[k].name) < |s.queue.inProgress|
    requires fs[k].name in d.inProgress
    requires s.queue.inProgress[Rank(d.Claimed(), fs[k].name)] == d.Claimed()[fs[k].name]
    ensures RemoveNewest(s.queue.inProgress, s.held[k].element)
         == RemoveAt(s.queue.inProgress, Rank(d.Claimed(), fs[k].name))
  {
    assert LinkedAt(s, d, next, s.held[k], fs[k], rs[k]) && HeldOk(s, s.held[k]);
    assert d.Claimed() == d.inProgress;
    assert Total(s.queue, s.held[k].envelope.id) <= 1;
    OnlyOccurrence(s.queue.inProgress, Rank(d.Claimed(), fs[k].name), s.held[k].envelope.id);
  }

  /** A settle without a fault is the abstract settle. */
  lemma SettledIsMoved(s: System, d: Dirs, next: Name, fs: seq<F.FileDelivery>, rs: seq<R.RedisDelivery>, k: nat,
                       envelope: Envelope, target: Dir, d': Dirs, q': Queue)
    requires IdsOk(s) && Linked(s, d, next, fs, rs) && d.settling == map[] && k < |s.held|
    requires target == PendingDir || target == FailedDir
    requires SettleOutcome(d, s.queue, fs[k].name, Message(envelope), target, NO_FAULTS, d', q')
    ensures (q', true) == s.queue.MoveClaimed(s.held[k].element, envelope, StageOf(target))
    ensures d'.inProgress == d.inProgress - {fs[k].name} && d'.settling == map[]
  {
    assert LinkedAt(s, d, next, s.held[k], fs[k], rs[k]);
    TakenIsNewest(s, d, next, fs, rs, k);
  }

  lemma LinkedTaken(s: System, d: Dirs, next: Name, fs: seq<F.FileDelivery>, rs: seq<R.RedisDelivery>, k: nat,
                    s': System, d': Dirs, next': Name)
    requires IdsOk(s) && Linked(s, d, next, fs, rs) && k < |s.held| && NamesNew(d, next, d', next')
    requires s'.held == Drop(s.held, k)
    requires s'.queue.inProgress == s.queue.Acknowledge(s.held[k].element).0.inProgress
    requires d'.inProgress == d.inProgress - {fs[k].name}
    ensures Linked(s', d', next', Drop(fs, k), Drop(rs, k))
  {
    DropOne(s.held, k);
    DropOne(fs, k);
    DropOne(rs, k);
    forall i | 0 <= i < |s'.held| ensures LinkedAt(s', d', next', s'.held[i], Drop(fs, k)[i], Drop(rs, k)[i]) {
      var j := if i < k then i else i + 1;
      assert LinkedAt(s, d, next, s.held[j], fs[j], rs[j]);
      if s.held[k].element in s.queue.inProgress {
        OthersStay(s, k, j);
      }
    }
  }

  lemma LinkedClear(s: System, d: Dirs, next: Name, fs: seq<F.FileDelivery>, rs: seq<R.RedisDelivery>, stage: Stage)
    requires Linked(s, d, next, fs, rs)
    ensures Linked(Step(s, Call.Clear(stage)).0, Cleared(d, stage), next, fs, rs)
  {
    var s', d' := Step(s, Call.Clear(stage)).0, Cleared(d, stage);
    forall k | 0 <= k < |s'.held| ensures LinkedAt(s', d', next, s'.held[k], fs[k], rs[k]) {
      assert LinkedAt(s, d, next, s.held[k], fs[k], rs[k]);
    }
  }

  // ---------------------------------------------------------------- the two lanes

  class DriverPair {
    const store: F.FileStore
    const driver: R.RedisDriver
    var fileHeld: seq<F.FileDelivery>
    var redisHeld: seq<R.RedisDelivery>
    ghost var sys: System

    ghost predicate Valid()
      reads this, store, driver.server
    {
      && store.Valid() && store.queue == sys.queue && driver.View() == sys.queue
      && store.dirs.settling == map[]
      && IdsOk(sys) && Linked(sys, store.dirs, store.next, fileHeld, redisHeld)
    }

    constructor ()
      ensures Valid() && sys == EMPTY && fresh(store) && fresh(driver.server)
    {
      var server := new R.RedisServer();
      store := new F.FileStore();
      driver := new R.RedisDriver(server);
      fileHeld, redisHeld, sys := [], [], EMPTY;
    }

    method Publish(e: Envelope) returns (file: Reply, redis: Reply)
      requires Valid() && Fresh(sys, Call.Publish(e))
      modifies this, store, driver.server
      ensures Valid() && (sys, file) == Step(old(sys), Call.Publish(e)) && redis == file
    {
      ghost var d, n, s := store.dirs, store.next, sys;
      var _ := store.Publish(e, Completes);
      driver.Publish(e);
      file, redis := Done, Done;
      sys := Step(sys, Call.Publish(e)).0;
      IdsStep(s, Call.Publish(e));
      LinkedQuiet(s, d, n, fileHeld, redisHeld, sys, store.dirs, store.next);
    }

    method Intrude(text: nat) returns (file: Reply, redis: Reply)
      requires Valid()
      modifies this, store, driver.server
      ensures Valid() && (sys, file) == Step(old(sys), Call.Intrude(text)) && redis == file
    {
      ghost var d, n, s := store.dirs, store.next, sys;
      store.Insert(Malformed(text));
      driver.Insert(Malformed(text));
      file, redis := Done, Done;
      sys := Step(sys, Call.Intrude(text)).0;
      IdsStep(s, Call.Intrude(text));
      LinkedQuiet(s, d, n, fileHeld, redisHeld, sys, store.dirs, store.next);
    }

    method Dequeue() returns (file: Reply, redis: Reply)
      requires Valid()
      modifies this, store, driver.server
      ensures Valid() && (sys, file) == Step(old(sys), Call.Dequeue) && redis == file
    {
      ghost var d, n, s := store.dirs, store.next, sys;
      IdsStep(s, Call.Dequeue);
      ClaimTakes(s.queue);
      var f := store.ClaimOldest();
      var r := driver.Dequeue();
      sys := Step(sys, Call.Dequeue).0;
      file := Claimed(if f.Some? then Some(f.value.envelope) else None);
      redis := Claimed(if r.Some? then Some(r.value.envelope) else None);
      if f.Some? && r.Some? {
        LinkedClaim(s, d, n, fileHeld, redisHeld, s.queue.Claim().1.value, f.value.name, store.dirs, store.next);
        fileHeld, redisHeld := fileHeld + [f.value], redisHeld + [r.value];
      } else {
        LinkedQuiet(s, d, n, fileHeld, redisHeld, sys, store.dirs, store.next);
      }
    }

    method Acknowledge(k: nat) returns (file: Reply, redis: Reply)
      requires Valid()
      modifies this, store, driver.server
      ensures Valid() && (sys, file) == Step(old(sys), Call.Acknowledge(k)) && redis == file
    {
      if k >= |fileHeld| {
        return NoSuchDelivery, NoSuchDelivery;
      }
      ghost var d, n, s := store.dirs, store.next, sys;
      assert LinkedAt(s, d, n, s.held[k], fileHeld[k], redisHeld[k]);
      IdsStep(s, Call.Acknowledge(k));
      var f := store.Acknowledge(fileHeld[k].name);
      var r := driver.Acknowledge(redisHeld[k].element);
      file, redis := SettleReply(f), SettleReply(r);
      sys := Step(sys, Call.Acknowledge(k)).0;
      if f {
        TakenIsNewest(s, d, n, fileHeld, redisHeld, k);
      }
      LinkedTaken(s, d, n, fileHeld, redisHeld, k, sys, store.dirs, store.next);
      fileHeld, redisHeld := Drop(fileHeld, k), Drop(redisHeld, k);
    }

    method MoveFile(k: nat, envelope: Envelope, target: Stage) returns (found: bool)
      requires Valid() && k < |fileHeld| && target != InProgress
      modifies store
      ensures store.Valid()
      ensures (store.queue, found) == sys.queue.MoveClaimed(sys.held[k].element, envelope, target)
      ensures store.dirs.inProgress == old(store.dirs).inProgress - {fileHeld[k].name}
      ensures store.dirs.settling == map[] && NamesNew(old(store.dirs), old(store.next), store.dirs, store.next)
    {
      hide Ordered;
      hide Directories.ViewOf;
      hide IdsOk;
      hide SettleOutcome;
      hide NamesNew;
      ghost var d, n := store.dirs, store.next;
      assert LinkedAt(sys, d, n, sys.held[k], fileHeld[k], redisHeld[k]);
      var dir := if target == Pending then PendingDir else FailedDir;
      var result := store.MoveClaimed(fileHeld[k].name, envelope, dir, NO_FAULTS);
      found := result == Moved;
      if found {
        SettledIsMoved(sys, d, n, fileHeld, redisHeld, k, envelope, dir, store.dirs, store.queue);
      }
    }

    /** A settle that moves the message, with the envelope that the delivery now carries. */
    method MoveBoth(k: nat, envelope: Envelope, target: Stage) returns (file: Reply, redis: Reply)
      requires Valid() && k < |fileHeld| && target != InProgress && envelope.id == sys.held[k].envelope.id
      modifies this, store, driver.server
      ensures Valid() && (sys, file) == QueueCalls.Settle(old(sys), k, envelope, target) && redis == file
    {
      ghost var d, n, s := store.dirs, store.next, sys;
      assert LinkedAt(s, d, n, s.held[k], fileHeld[k], redisHeld[k]);
      MoveIds(s, k, envelope, target);
      var f := MoveFile(k, envelope, target);
      var r := driver.MoveClaimed(redisHeld[k].element, envelope, target);
      file, redis := SettleReply(f), SettleReply(r);
      sys := QueueCalls.Settle(sys, k, envelope, target).0;
      LinkedTaken(s, d, n, fileHeld, redisHeld, k, sys, store.dirs, store.next);
      fileHeld, redisHeld := Drop(fileHeld, k), Drop(redisHeld, k);
    }

    method Settle(call: Call) returns (file: Reply, redis: Reply)
      requires Valid() && (call.Retry? || call.MoveToFailed? || call.Release?)
      modifies this, store, driver.server
      ensures Valid() && (sys, file) == Step(old(sys), call) && redis == file
    {
      if call.k >= |fileHeld| {
        return NoSuchDelivery, NoSuchDelivery;
      }
      assert LinkedAt(sys, store.dirs, store.next, sys.held[call.k], fileHeld[call.k], redisHeld[call.k]);
      var envelope := fileHeld[call.k].envelope;
      match call {
        case Retry(k) => file, redis := MoveBoth(k, envelope, Pending);
        case MoveToFailed(k) => file, redis := MoveBoth(k, envelope, Failed);
        case Release(k) => file, redis := MoveBoth(k, envelope.TakeBackAttempt(), Pending);
      }
    }

    method Recover() returns (file: Reply, redis: Reply)
      requires Valid() && |sys.queue.inProgress| <= USIZE_MAX
      modifies this, store, driver.server
      ensures Valid() && (sys, file) == Step(old(sys), Call.Recover) && redis == file
    {
      hide Ordered;
      hide Directories.ViewOf;
      IdsStep(sys, Call.Recover);
      var f := store.Recover();
      var r := driver.Recover();
      file, redis := Count(f), Count(r);
      sys := Step(sys, Call.Recover).0;
      fileHeld, redisHeld := [], [];
    }

    method Republish(limit: nat) returns (file: Reply, redis: Reply)
      requires Valid()
      modifies this, store, driver.server
      ensures Valid() && (sys, file) == Step(old(sys), Call.Republish(limit)) && redis == file
    {
      hide Ordered;
      hide Directories.ViewOf;
      hide IdsOk;
      hide Linked;
      hide Shows;
      hide RedisLists.ViewOf;
      hide Queue.Claim;
      ghost var d, n, s := store.dirs, store.next, sys;
      IdsStep(s, Call.Republish(limit));
      var f := store.RepublishFailed(limit);
      var r := driver.RepublishFailed(limit);
      file, redis := Count(f), Count(r);
      sys := Step(sys, Call.Republish(limit)).0;
      LinkedQuiet(s, d, n, fileHeld, redisHeld, sys, store.dirs, store.next);
    }

    method Clear(stage: Stage) returns (file: Reply, redis: Reply)
      requires Valid()
      modifies this, store, driver.server
      ensures Valid() && (sys, file) == Step(old(sys), Call.Clear(stage)) && redis == file
    {
      ghost var d, n, s := store.dirs, store.next, sys;
      IdsStep(s, Call.Clear(stage));
      var f := store.Clear(stage);
      var r := driver.Clear(stage);
      file, redis := Count(f), Count(r);
      sys := Step(sys, Call.Clear(stage)).0;
      LinkedClear(s, d, n, fileHeld, redisHeld, stage);
    }

    /** The range check of Queue.peek comes before the driver. */
    method Peek(stage: Stage, first: usize, last: usize) returns (file: Reply, redis: Reply)
      requires Valid() && |sys.queue.Get(stage)| <= INDEX_LIMIT
      modifies this, store, driver.server
      ensures Valid() && (sys, file) == Step(old(sys), Call.Peek(stage, first, last)) && redis == file
    {
      if last < first {
        return Read([]), Read([]);
      }
      var f := store.Peek(stage, first, last);
      var r := driver.Peek(stage, first, last);
      file, redis := Read(f), Read(r);
    }

    method Lengths() returns (file: Reply, redis: Reply)
      requires Valid()
      modifies this, store, driver.server
      ensures Valid() && (sys, file) == Step(old(sys), Call.Lengths) && redis == file
    {
      var p, i, f := store.Lengths();
      file := Counts(p, i, f);
      p, i, f := driver.Lengths();
      redis := Counts(p, i, f);
    }

    method Perform(call: Call) returns (file: Reply, redis: Reply)
      requires Valid() && Fresh(sys, call) && Size(sys.queue) <= INDEX_LIMIT
      modifies this, store, driver.server
      ensures Valid() && (sys, file) == Step(old(sys), call) && redis == file
    {
      match call {
        case Publish(e) => file, redis := Publish(e);
        case Intrude(text) => file, redis := Intrude(text);
        case Dequeue => file, redis := Dequeue();
        case Acknowledge(k) => file, redis := Acknowledge(k);
        case Retry(_) | MoveToFailed(_) | Release(_) => file, redis := Settle(call);
        case Recover => file, redis := Recover();
        case Republish(limit) => file, redis := Republish(limit);
        case Clear(stage) => file, redis := Clear(stage);
        case Peek(stage, first, last) => file, redis := Peek(stage, first, last);
        case Lengths => file, redis := Lengths();
      }
    }
  }

  /** Both drivers go through any calls, and every reply of either is the reply of the abstract
      queue. */
  method SameReplies(calls: seq<Call>) returns (file: seq<Reply>, redis: seq<Reply>)
    requires DistinctIds(calls, |calls|) && |calls| <= 0x7FFF_FFFF_FFFF_FFFE
    ensures file == redis == Run(calls, |calls|).1
  {
    hide Step;
    hide DriverPair.Valid;
    var pair := new DriverPair();
    file, redis := [], [];
    for i := 0 to |calls|
      invariant pair.Valid() && fresh(pair) && fresh(pair.store) && fresh(pair.driver.server)
      invariant (pair.sys, file) == Run(calls, i) && redis == file
    {
      RunFresh(calls, i, |calls|);
      RunSize(calls, i);
      var f, r := pair.Perform(calls[i]);
      file, redis := file + [f], redis + [r];
    }
  }

  // ---------------------------------------------------------------- a recovery beside a delivery

  lemma OneName(m: Directories.Files, a: Name, b: Name)
    requires |SortedNames.Contents(m)| == 1 && a in m && b in m
    ensures a == b
  {
    SortedNames.ContentsLength(m);
    if a != b {
      assert m.Keys >= {a, b};
      SortedNames.SubsetSize({a, b}, m.Keys);
    }
  }

  /** How the first of two holders settles its delivery. */
  datatype FirstSettle = Acknowledges | Retries | MovesToFailed | Releases

  /** When a delivery kept over a recovery, against the documentation, makes the drivers differ. Two
      consumers hold one message, the first settles it, a third claims what is pending, and then the
      second settles too. The file driver never finds a file under the old name. The Redis driver
      finds the third consumer's claim exactly when the first settle was a release that brought the
      old bytes back. */
  method StaleReceiptsDiffer(e: Envelope, first: FirstSettle) returns (file: SettleResult, redis: bool)
    ensures file == NotInProgress
    ensures redis <==> first.Releases? && e.attempts < U32_MAX
  {
    file := StaleFileReceipt(e, first);
    redis := StaleRedisReceipt(e, first);
  }

  function StoredBy(first: FirstSettle, envelope: Envelope): Envelope {
    if first.Releases? then envelope.TakeBackAttempt() else envelope
  }

  method StaleFileReceipt(e: Envelope, first: FirstSettle) returns (file: SettleResult)
    ensures file == NotInProgress
  {
    var store := new F.FileStore();
    var _ := store.Publish(e, Completes);
    var a := store.ClaimOldest();
    var _ := store.Recover();
    assert a.value.name in store.dirs.pending;
    ghost var d := store.dirs;
    assert SortedNames.Contents(d.pending) == [Message(e)];
    var b := store.ClaimOldest();
    OneName(d.pending, a.value.name, b.value.name);
    file := StaleFileSettle(store, a.value, b.value, first);
  }

  /** From both holders on. */
  method StaleFileSettle(store: F.FileStore, a: F.FileDelivery, b: F.FileDelivery, first: FirstSettle)
    returns (file: SettleResult)
    requires store.Valid() && a.name == b.name && b.name in store.dirs.inProgress && b.name !in store.dirs.pending
    requires store.dirs.settling == map[]
    modifies store
    ensures file == NotInProgress
  {
    if first.Acknowledges? {
      var _ := store.Acknowledge(a.name);
    } else {
      var target := if first.MovesToFailed? then FailedDir else PendingDir;
      var _ := store.MoveClaimed(a.name, StoredBy(first, a.envelope), target, NO_FAULTS);
    }
    file := StaleSettle(store, b);
  }

  /** A third claim, and a settle by a name that is in no directory. */
  method StaleSettle(store: F.FileStore, b: F.FileDelivery) returns (file: SettleResult)
    requires store.Valid() && b.name !in store.dirs.Claimed() && b.name !in store.dirs.pending && b.name < store.next
    modifies store
    ensures file == NotInProgress
  {
    var c := store.ClaimOldest();
    file := store.MoveClaimed(b.name, b.envelope.TakeBackAttempt(), PendingDir, NO_FAULTS);
  }

  method StaleRedisReceipt(e: Envelope, first: FirstSettle) returns (redis: bool)
    ensures redis <==> first.Releases? && e.attempts < U32_MAX
  {
    var server := new R.RedisServer();
    var driver := new R.RedisDriver(server);
    var x := Message(e);
    driver.Publish(e);
    assert driver.View() == Queue([x], [], []);
    var a := driver.Dequeue();
    assert driver.View() == Queue([], [x], []);
    var _ := driver.Recover();
    assert driver.View() == Queue([x], [], []);
    var b := driver.Dequeue();
    assert driver.View() == Queue([], [x], []);
    assert a == b == Some(R.RedisDelivery(x, e.CountAttempt()));
    redis := StaleRedisSettle(driver, e, first);
  }

  /** From both holders on: the first settle, the third claim, and the second settle. */
  method StaleRedisSettle(driver: R.RedisDriver, e: Envelope, first: FirstSettle) returns (redis: bool)
    requires driver.View() == Queue([], [Message(e)], [])
    modifies driver.server
    ensures redis <==> first.Releases? && e.attempts < U32_MAX
  {
    var x, envelope := Message(e), e.CountAttempt();
    var stored := StoredBy(first, envelope);
    if first.Acknowledges? {
      var _ := driver.Acknowledge(x);
      assert driver.View() == Queue([], [], []);
    } else {
      var target := if first.MovesToFailed? then Failed else Pending;
      var _ := driver.MoveClaimed(x, stored, target);
      assert target == Pending ==> driver.View() == Queue([Message(stored)], [], []);
      assert target == Failed ==> driver.View() == Queue([], [], [Message(stored)]);
    }
    var c := driver.Dequeue();
    assert driver.View().inProgress == if first.Retries? || first.Releases? then [Message(stored)] else [];
    redis := driver.MoveClaimed(x, envelope.TakeBackAttempt(), Pending);
  }
}
