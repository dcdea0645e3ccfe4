/** The other calls of the file driver, run alone: publish, acknowledge, claim, clear and republish
    do the file operations of the file store, or show what the abstract queue shows. */
module SerialCalls {
  import opened Integers
  import opened Messages
  import opened Disk
  import opened AbstractQueue
  import opened Directories
  import opened FileStoreEffects
  import opened SortedNames
  import opened SerialProtocol
  import P = FileProtocol

  const GO := P.Go(0, [])

  // ---------------------------------------------------------------- publish and acknowledge

  function PublishMoves(name: Name, e: Envelope, fault: WriteFault): seq<P.Move> {
    [P.Begin(P.Publish(name, e))]
    + if fault == Unwritten then [P.Fail] else [GO, if fault == Unsynced then P.Fail else GO]
  }

  /** A publish that runs alone writes its file unless the write fails early. */
  lemma PublishAlone(s: P.State, pid: P.Pid, d: Dirs, name: Name, e: Envelope, fault: WriteFault)
    requires At(s, pid, P.Idle, d) && name !in s.issued
    ensures At(P.Alone(s, pid, PublishMoves(name, e, fault)), pid, P.Idle,
               if fault == Unwritten then d else d.Write(Path(PendingDir, name), Message(e)))
  {
    hide P.Apply;
    hide At;
    var begin := P.Begin(P.Publish(name, e));
    BeginsPublish(s, pid, d, name, e);
    var s1 := P.Apply(s, pid, begin);
    if fault == Unwritten {
      QuietMove(s1, pid, P.Publishing(name, e), d, P.Fail, P.Idle);
      P.AloneStep(s, pid, begin, [P.Fail]);
      P.AloneStep(s1, pid, P.Fail, []);
    } else {
      var last := if fault == Unsynced then P.Fail else GO;
      OneMove(s1, pid, P.Publishing(name, e), d, GO);
      var s2, d' := P.Apply(s1, pid, GO), d.Write(Path(PendingDir, name), Message(e));
      OneMove(s2, pid, P.PublishSyncing(name, e), d', last);
      P.AloneStep(s, pid, begin, [GO, last]);
      P.AloneStep(s1, pid, GO, [last]);
      P.AloneStep(s2, pid, last, []);
    }
  }

  lemma BeginsPublish(s: P.State, pid: P.Pid, d: Dirs, name: Name, e: Envelope)
    requires At(s, pid, P.Idle, d) && name !in s.issued
    ensures At(P.Apply(s, pid, P.Begin(P.Publish(name, e))), pid, P.Publishing(name, e), d)
  {
    OneMove(s, pid, P.Idle, d, P.Begin(P.Publish(name, e)));
  }

  /** An acknowledge is one step. It takes away the in-progress file if it is there, and reports
      success exactly then, as the store's acknowledge does. */
  lemma AcknowledgeAlone(s: P.State, pid: P.Pid, d: Dirs, name: Name, e: Envelope)
    requires At(s, pid, P.Holding(name, e), d)
    ensures At(P.Alone(s, pid, [P.Acknowledge]), pid, P.Idle,
               if name in d.inProgress then d.Remove(Path(InProgressDir, name)) else d)
    ensures P.Alone(s, pid, [P.Acknowledge]).events
         == s.events + multiset{if name in d.inProgress then P.Acknowledged(name) else P.LostBeforeCopy(name)}
  {
    assert SameAt(s.files, d, Path(InProgressDir, name));
    OneMove(s, pid, P.Holding(name, e), d, P.Acknowledge);
    P.AloneStep(s, pid, P.Acknowledge, []);
  }

  // ---------------------------------------------------------------- claim

  predicate Unused(s: P.State, next: Name) {
    forall n | n in s.issued :: n < next
  }

  /** The moves of a claim: two for a message, and three to send an unreadable file to failed. */
  function ClaimMoves(files: Directories.Files, listing: seq<Name>, next: Name): seq<P.Move>
    requires forall n | n in listing :: n in files
  {
    if listing == [] then [GO]
    else if files[listing[0]].Message? then [GO] + [GO]
    else [GO] + ([GO] + ([P.Go(next, [])] + ClaimMoves(files, listing[1..], next + 1)))
  }

  /** The caller after a claim holds the file that the claim took, or nothing. */
  ghost predicate AfterClaim(s: P.State, pid: P.Pid, d: Dirs, claimed: Option<Envelope>) {
    match claimed
    case None => At(s, pid, P.Idle, d)
    case Some(e) =>
      exists name | name in d.inProgress ::
        d.inProgress[name] == Message(e) && At(s, pid, P.Holding(name, e.CountAttempt()), d)
  }

  lemma ListingOldest(files: Directories.Files, listing: seq<Name>)
    requires listing == Sorted(files.Keys)
    ensures forall n :: n in listing <==> n in files
    ensures |listing| == 0 ==> files == map[]
    ensures |listing| > 0 ==> Oldest(files, listing[0]) && listing[1..] == Sorted((files - {listing[0]}).Keys)
  {
    SortedMembers(files.Keys);
    assert listing[0..] == listing;
    if |listing| > 0 {
      RemainingHead(files, listing, 0);
    }
  }

  /** The oldest pending file is a message. */
  lemma TakesMessage(s: P.State, pid: P.Pid, d: Dirs, listing: seq<Name>)
    requires At(s, pid, P.Claiming(listing), d) && |listing| > 0 && listing[0] in d.pending
             && d.pending[listing[0]].Message?
    ensures var n, s' := listing[0], P.Alone(s, pid, [GO] + [GO]);
            && At(s', pid, P.Holding(n, d.pending[n].envelope.CountAttempt()),
                  d.Rename(Path(PendingDir, n), Path(InProgressDir, n)))
            && s'.issued == s.issued
  {
    hide P.Apply;
    var n := listing[0];
    var d1, s1 := d.Rename(Path(PendingDir, n), Path(InProgressDir, n)), P.Apply(s, pid, GO);
    assert SameAt(s.files, d, Path(PendingDir, n));
    OneMove(s, pid, P.Claiming(listing), d, GO);
    assert SameAt(s1.files, d1, Path(InProgressDir, n));
    OneMove(s1, pid, P.ClaimReading(n, listing[1..]), d1, GO);
    P.AloneStep(s, pid, GO, [GO]);
    P.AloneStep(s1, pid, GO, []);
  }

  /** The oldest pending file is unreadable. */
  lemma DiscardsOne(s: P.State, pid: P.Pid, d: Dirs, listing: seq<Name>, next: Name, rest: seq<P.Move>)
    returns (s': P.State)
    requires At(s, pid, P.Claiming(listing), d) && |listing| > 0 && listing[0] in d.pending
             && d.pending[listing[0]].Malformed?
    requires next !in s.issued
    ensures var n := listing[0];
            var d1 := d.Rename(Path(PendingDir, n), Path(InProgressDir, n));
            && n in d1.inProgress
            && At(s', pid, P.Claiming(listing[1..]), d1.Rename(Path(InProgressDir, n), Path(FailedDir, next)))
            && s'.issued == s.issued + {next}
    ensures P.Alone(s, pid, [GO] + ([GO] + ([P.Go(next, [])] + rest))) == P.Alone(s', pid, rest)
  {
    hide P.Apply;
    var n, discard := listing[0], P.Go(next, []);
    var d1, s1 := d.Rename(Path(PendingDir, n), Path(InProgressDir, n)), P.Apply(s, pid, GO);
    assert SameAt(s.files, d, Path(PendingDir, n));
    OneMove(s, pid, P.Claiming(listing), d, GO);
    assert SameAt(s1.files, d1, Path(InProgressDir, n));
    OneMove(s1, pid, P.ClaimReading(n, listing[1..]), d1, GO);
    var s2 := P.Apply(s1, pid, GO);
    assert SameAt(s2.files, d1, Path(InProgressDir, n));
    OneMove(s2, pid, P.ClaimDiscarding(n, listing[1..]), d1, discard);
    s' := P.Apply(s2, pid, discard);
    P.AloneStep(s, pid, GO, [GO] + ([discard] + rest));
    P.AloneStep(s1, pid, GO, [discard] + rest);
    P.AloneStep(s2, pid, discard, rest);
  }

  lemma DiscardLeaves(d: Dirs, n: Name, next: Name)
    requires n in d.pending
    ensures d.Rename(Path(PendingDir, n), Path(FailedDir, next)).pending == d.pending - {n}
  {
  }

  lemma {:induction false} SameMoves(a: Directories.Files, b: Directories.Files, listing: seq<Name>, next: Name)
    requires forall n | n in listing :: n in a && n in b && a[n] == b[n]
    ensures ClaimMoves(a, listing, next) == ClaimMoves(b, listing, next)
  {
    if |listing| > 0 {
      SameMoves(a, b, listing[1..], next + 1);
    }
  }

  /** A claim whose oldest file is unreadable goes on as a claim of the rest. */
  lemma DiscardsFirst(s: P.State, pid: P.Pid, d: Dirs, next: Name, q: Queue, listing: seq<Name>)
    returns (s': P.State, d': Dirs, q': Queue)
    requires At(s, pid, P.Claiming(listing), d) && listing == Sorted(d.pending.Keys)
    requires Shows(d, next, q) && Unused(s, next) && (forall n | n in listing :: n in d.pending)
    requires |listing| > 0 && d.pending[listing[0]].Malformed?
    ensures At(s', pid, P.Claiming(listing[1..]), d') && listing[1..] == Sorted(d'.pending.Keys)
    ensures Shows(d', next + 1, q') && Unused(s', next + 1) && (forall n | n in listing[1..] :: n in d'.pending)
    ensures q.Claim() == q'.Claim()
    ensures P.Alone(s, pid, ClaimMoves(d.pending, listing, next))
         == P.Alone(s', pid, ClaimMoves(d'.pending, listing[1..], next + 1))
  {
    hide P.Apply;
    hide P.Alone;
    hide Sorted;
    hide At;
    hide Ordered;
    hide ViewOf;
    var n := listing[0];
    ListingOldest(d.pending, listing);
    DiscardEffect(d, next, q, n);
    s' := DiscardsOne(s, pid, d, listing, next, ClaimMoves(d.pending, listing[1..], next + 1));
    d' := d.Rename(Path(PendingDir, n), Path(FailedDir, next));
    q' := Queue(Rest(q.pending), q.inProgress, q.failed + [d.pending[n]]);
    DiscardLeaves(d, n, next);
    ListingOldest(d'.pending, listing[1..]);
    SameMoves(d.pending, d'.pending, listing[1..], next + 1);
  }

  /** A claim whose oldest file is a message takes it. */
  lemma ClaimsFirst(s: P.State, pid: P.Pid, d: Dirs, next: Name, q: Queue, listing: seq<Name>)
    requires At(s, pid, P.Claiming(listing), d) && listing == Sorted(d.pending.Keys)
    requires Shows(d, next, q) && (forall n | n in listing :: n in d.pending)
    requires |listing| > 0 && d.pending[listing[0]].Message?
    ensures var d' := d.Rename(Path(PendingDir, listing[0]), Path(InProgressDir, listing[0]));
            && Shows(d', next, q.Claim().0)
            && AfterClaim(P.Alone(s, pid, ClaimMoves(d.pending, listing, next)), pid, d', q.Claim().1)
  {
    hide P.Apply;
    hide P.Alone;
    hide At;
    hide Sorted;
    hide Ordered;
    hide ViewOf;
    ListingOldest(d.pending, listing);
    ClaimEffect(d, next, q, listing[0]);
    TakesMessage(s, pid, d, listing);
  }

  /** A claim with nothing pending holds nothing. */
  lemma ClaimsNothing(s: P.State, pid: P.Pid, d: Dirs, next: Name, q: Queue)
    requires At(s, pid, P.Claiming([]), d) && [] == Sorted(d.pending.Keys) && Shows(d, next, q)
    ensures q.Claim() == (q, None)
    ensures AfterClaim(P.Alone(s, pid, ClaimMoves(d.pending, [], next)), pid, d, None)
  {
    hide P.Apply;
    hide At;
    hide Ordered;
    hide ViewOf;
    NothingPending(d, next, q, []);
    EndsQuietly(s, pid, P.Claiming([]), d);
  }

  /** A claim that runs alone claims the oldest pending message, and moves the unreadable ones
      before it to failed, as the claim of the abstract queue does. */
  lemma {:induction false} ClaimsAlone(s: P.State, pid: P.Pid, d: Dirs, next: Name, q: Queue, listing: seq<Name>)
    returns (d': Dirs, next': Name)
    requires At(s, pid, P.Claiming(listing), d) && listing == Sorted(d.pending.Keys)
    requires Shows(d, next, q) && Unused(s, next) && (forall n | n in listing :: n in d.pending)
    ensures Shows(d', next', q.Claim().0)
    ensures AfterClaim(P.Alone(s, pid, ClaimMoves(d.pending, listing, next)), pid, d', q.Claim().1)
    decreases |listing|
  {
    hide P.Apply;
    hide P.Alone;
    hide At;
    hide Sorted;
    hide Shows;
    hide AfterClaim;
    hide ClaimMoves;
    hide Queue.Claim;
    if |listing| == 0 {
      ClaimsNothing(s, pid, d, next, q);
      d', next' := d, next;
    } else if d.pending[listing[0]].Message? {
      ClaimsFirst(s, pid, d, next, q, listing);
      d', next' := d.Rename(Path(PendingDir, listing[0]), Path(InProgressDir, listing[0])), next;
    } else {
      var s1, d1, q1 := DiscardsFirst(s, pid, d, next, q, listing);
      d', next' := ClaimsAlone(s1, pid, d1, next + 1, q1, listing[1..]);
    }
  }

  lemma ClaimAlone(s: P.State, pid: P.Pid, d: Dirs, next: Name, q: Queue) returns (d': Dirs, next': Name)
    requires At(s, pid, P.Idle, d) && Shows(d, next, q) && Unused(s, next)
    ensures var listing := Sorted(d.pending.Keys);
            && (forall n | n in listing :: n in d.pending)
            && Shows(d', next', q.Claim().0)
            && AfterClaim(P.Alone(s, pid, [P.Begin(P.Claim(listing))] + ClaimMoves(d.pending, listing, next)),
                          pid, d', q.Claim().1)
  {
    hide P.Apply;
    hide At;
    hide Ordered;
    hide ViewOf;
    hide AfterClaim;
    var listing := Sorted(d.pending.Keys);
    var begin := P.Begin(P.Claim(listing));
    QuietMove(s, pid, P.Idle, d, begin, P.Claiming(listing));
    ListingOldest(d.pending, listing);
    P.AloneStep(s, pid, begin, ClaimMoves(d.pending, listing, next));
    d', next' := ClaimsAlone(P.Apply(s, pid, begin), pid, d, next, q, listing);
  }

  // ---------------------------------------------------------------- clear

  function Clears(dir: Dir, names: seq<Name>): P.Proc {
    match dir
    case PendingDir => P.Clearing(Pending, names)
    case InProgressDir => P.Clearing(InProgress, names)
    case SettlingDir => P.ClearingSettles(names)
    case FailedDir => P.Clearing(Failed, names)
  }

  lemma ClearDecides(files: Disk.Files, dir: Dir, names: seq<Name>)
    requires |names| > 0 && Path(dir, names[0]) in files
    ensures P.Decide(files, Clears(dir, names), GO)
         == P.Outcome(Clears(dir, names[1..]), Remove(Path(dir, names[0])), P.Cleared(names[0]), None)
  {
  }

  lemma ClearStep(s: P.State, pid: P.Pid, d: Dirs, dir: Dir, names: seq<Name>)
    requires |names| > 0 && names[0] in d.Get(dir) && At(s, pid, Clears(dir, names), d)
    ensures At(P.Apply(s, pid, GO), pid, Clears(dir, names[1..]), d.Remove(Path(dir, names[0])))
  {
    hide Clears;
    hide P.Decide;
    assert SameAt(s.files, d, Path(dir, names[0]));
    ClearDecides(s.files, dir, names);
    OneMove(s, pid, Clears(dir, names), d, GO);
  }

  /** One file is gone, and the rest of the listing is what is left. */
  lemma ClearsOne(d: Dirs, dir: Dir, n: Name)
    ensures var d' := d.Remove(Path(dir, n));
            d'.Get(dir) == d.Get(dir) - {n} && d'.Put(dir, map[]) == d.Put(dir, map[])
  {
  }

  lemma ClearsNothing(d: Dirs, dir: Dir)
    requires d.Get(dir) == map[]
    ensures d.Put(dir, map[]) == d
  {
  }

  /** One file is removed, and the clear goes on with the rest of the listing. */
  lemma ClearsFirst(s: P.State, pid: P.Pid, d: Dirs, dir: Dir, names: seq<Name>, rest: seq<P.Move>)
    requires At(s, pid, Clears(dir, names), d) && names == Sorted(d.Get(dir).Keys) && |names| > 0
    ensures var s', d' := P.Apply(s, pid, GO), d.Remove(Path(dir, names[0]));
            && At(s', pid, Clears(dir, names[1..]), d') && names[1..] == Sorted(d'.Get(dir).Keys)
            && d'.Put(dir, map[]) == d.Put(dir, map[])
            && P.Alone(s, pid, Repeat(|names|) + rest) == P.Alone(s', pid, Repeat(|names[1..]|) + rest)
  {
    hide P.Apply;
    hide At;
    hide Clears;
    hide Sorted;
    hide Dirs.Get;
    hide Dirs.Put;
    hide Dirs.Remove;
    ListingOldest(d.Get(dir), names);
    ClearStep(s, pid, d, dir, names);
    ClearsOne(d, dir, names[0]);
    RepeatStep(|names|, rest);
    P.AloneStep(s, pid, GO, Repeat(|names| - 1) + rest);
  }

  lemma {:induction false} ClearsAlone(s: P.State, pid: P.Pid, d: Dirs, dir: Dir, names: seq<Name>, rest: seq<P.Move>)
    returns (s': P.State)
    requires At(s, pid, Clears(dir, names), d) && names == Sorted(d.Get(dir).Keys)
    ensures At(s', pid, Clears(dir, []), d.Put(dir, map[]))
    ensures P.Alone(s, pid, Repeat(|names|) + rest) == P.Alone(s', pid, rest)
    decreases |names|
  {
    hide P.Apply;
    hide P.Alone;
    hide At;
    hide Clears;
    hide Sorted;
    hide Dirs.Get;
    hide Dirs.Put;
    hide Dirs.Remove;
    if |names| == 0 {
      ListingOldest(d.Get(dir), names);
      assert Repeat(0) + rest == rest;
      ClearsNothing(d, dir);
      s' := s;
    } else {
      ClearsFirst(s, pid, d, dir, names, rest);
      s' := ClearsAlone(P.Apply(s, pid, GO), pid, d.Remove(Path(dir, names[0])), dir, names[1..], rest);
    }
  }

  function ClearMoves(d: Dirs, stage: Stage): seq<P.Move> {
    var names := Sorted(d.Get(P.StageDir(stage)).Keys);
    var settles := Sorted(d.settling.Keys);
    [P.Begin(P.Clear(stage, names))] + (Repeat(|names|)
      + if stage == InProgress then [P.Go(0, settles)] + (Repeat(|settles|) + [GO]) else [GO])
  }

  /** A clear that runs alone empties its stage as the store's clear does, settling files
      included, and touches nothing else. */
  lemma ClearAlone(s: P.State, pid: P.Pid, d: Dirs, stage: Stage)
    requires At(s, pid, P.Idle, d)
    ensures At(P.Alone(s, pid, ClearMoves(d, stage)), pid, P.Idle, Cleared(d, stage))
  {
    hide P.Apply;
    hide P.Alone;
    hide Sorted;
    hide Repeat;
    hide At;
    var dir := P.StageDir(stage);
    var names, settles := Sorted(d.Get(dir).Keys), Sorted(d.settling.Keys);
    var begin, turn := P.Begin(P.Clear(stage, names)), P.Go(0, settles);
    var last := if stage == InProgress then [turn] + (Repeat(|settles|) + [GO]) else [GO];
    QuietMove(s, pid, P.Idle, d, begin, P.Clearing(stage, names));
    P.AloneStep(s, pid, begin, Repeat(|names|) + last);
    var s1 := ClearsAlone(P.Apply(s, pid, begin), pid, d, dir, names, last);
    var d1 := d.Put(dir, map[]);
    if stage == InProgress {
      QuietMove(s1, pid, P.Clearing(InProgress, []), d1, turn, P.ClearingSettles(settles));
      P.AloneStep(s1, pid, turn, Repeat(|settles|) + [GO]);
      var s2 := ClearsAlone(P.Apply(s1, pid, turn), pid, d1, SettlingDir, settles, [GO]);
      EndsQuietly(s2, pid, P.ClearingSettles([]), d1.Put(SettlingDir, map[]));
    } else {
      EndsQuietly(s1, pid, P.Clearing(stage, []), d1);
    }
  }

  // ---------------------------------------------------------------- republish

  function RepublishMoves(next: Name, n: nat): seq<P.Move>
    decreases n
  {
    if n == 0 then [GO] else [P.Go(next, [])] + RepublishMoves(next + 1, n - 1)
  }

  lemma RepublishOne(s: P.State, pid: P.Pid, d: Dirs, next: Name, names: seq<Name>)
    requires At(s, pid, P.Republishing(names), d) && |names| > 0 && names[0] in d.failed && next !in s.issued
    ensures At(P.Apply(s, pid, P.Go(next, [])), pid, P.Republishing(names[1..]),
               d.Rename(Path(FailedDir, names[0]), Path(PendingDir, next)))
    ensures P.Apply(s, pid, P.Go(next, [])).issued == s.issued + {next}
  {
    assert SameAt(s.files, d, Path(FailedDir, names[0]));
    OneMove(s, pid, P.Republishing(names), d, P.Go(next, []));
  }

  lemma {:induction false} RepublishesAlone(s: P.State, pid: P.Pid, d0: Dirs, next0: Name, d: Dirs, next: Name,
                                            q: Queue, listing: seq<Name>, i: nat, n: nat) returns (d': Dirs)
    requires i <= n <= |listing| && Republishing(q, d0, next0, d, next, listing, i)
    requires At(s, pid, P.Republishing(listing[i..n]), d) && Unused(s, next)
    ensures At(P.Alone(s, pid, RepublishMoves(next, n - i)), pid, P.Idle, d')
    ensures Shows(d', next + n - i, q.Republish(n).0)
    decreases n - i
  {
    hide P.Apply;
    hide At;
    hide Ordered;
    hide ViewOf;
    if i == n {
      EndsQuietly(s, pid, P.Republishing([]), d);
      d' := d;
    } else {
      var names, go := listing[i..n], P.Go(next, []);
      RepublishStep(q, d0, next0, d, next, listing, i);
      RepublishOne(s, pid, d, next, names);
      assert names[1..] == listing[i + 1..n];
      d' := RepublishesAlone(P.Apply(s, pid, go), pid, d0, next0,
                             d.Rename(Path(FailedDir, names[0]), Path(PendingDir, next)),
                             next + 1, q, listing, i + 1, n);
      P.AloneStep(s, pid, go, RepublishMoves(next + 1, n - i - 1));
    }
  }

  lemma WholeListing(files: Directories.Files)
    ensures Remaining(files, Sorted(files.Keys), 0)
  {
    hide Sorted;
    assert Sorted(files.Keys)[0..] == Sorted(files.Keys);
  }

  /** A republish that runs alone moves the oldest failed messages to the end of pending, as the
      republish of the abstract queue does. */
  lemma RepublishAlone(s: P.State, pid: P.Pid, d: Dirs, next: Name, q: Queue, limit: nat) returns (d': Dirs)
    requires At(s, pid, P.Idle, d) && Shows(d, next, q) && Unused(s, next)
    ensures var listing := Sorted(d.failed.Keys);
            var n := Min(limit, |listing|);
            && At(P.Alone(s, pid, [P.Begin(P.Republish(listing[..n]))] + RepublishMoves(next, n)), pid, P.Idle, d')
            && Shows(d', next + n, q.Republish(limit).0)
  {
    hide P.Alone;
    hide P.Apply;
    hide Sorted;
    hide RepublishMoves;
    hide At;
    hide Shows;
    hide Republishing;
    hide Remaining;
    var listing := Sorted(d.failed.Keys);
    var n := Min(limit, |listing|);
    var begin := P.Begin(P.Republish(listing[..n]));
    WholeListing(d.failed);
    RepublishStart(d, next, q, listing);
    QuietMove(s, pid, P.Idle, d, begin, P.Republishing(listing[..n]));
    assert listing[..n] == listing[0..n];
    P.AloneStep(s, pid, begin, RepublishMoves(next, n));
    d' := RepublishesAlone(P.Apply(s, pid, begin), pid, d, next, d, next, q, listing, 0, n);
  }
}
