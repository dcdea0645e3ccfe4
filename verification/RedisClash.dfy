/** When claims can make two Redis consumers hold one element: exactly when a held element is put
    back into pending. */
module RedisClash {
  import opened Integers
  import opened Messages
  import opened AbstractQueue
  import opened RedisLists
  import opened Conservation
  import opened RedisProtocol
  import opened RedisExclusivity

  /** The state after the first `n` actions on `s`. */
  function RunFrom(s: State, actions: seq<Action>, n: nat): State
    requires n <= |actions|
  {
    if n == 0 then s else Apply(RunFrom(s, actions, n - 1), actions[n - 1])
  }

  predicate ClaimsOnly(actions: seq<Action>) {
    forall i | 0 <= i < |actions| :: actions[i].command.Claim?
  }

  predicate SameElement(p: Proc, q: Proc) {
    p.Holding? && q.Holding? && p.element == q.element
  }

  ghost predicate TwoHolders(s: State) {
    exists a, b :: a != b && SameElement(ProcOf(s, a), ProcOf(s, b))
  }

  /** Claims alone, with any replies lost, can make two processes hold one element. */
  ghost predicate ClaimsClash(s: State) {
    exists claims, n: nat | n <= |claims| :: ClaimsOnly(claims) && TwoHolders(RunFrom(s, claims, n))
  }

  // ---------------------------------------------------------------- claims

  /** No element is held twice, and none that is held is pending. */
  ghost predicate Separate(s: State) {
    && Conserved(s)
    && (forall pid | pid in s.procs && s.procs[pid].Holding? :: s.procs[pid].element !in s.lists.pending)
    && (forall a, b | a in s.procs && b in s.procs && a != b :: !SameElement(s.procs[a], s.procs[b]))
  }

  lemma ExclusiveSeparate(s: State)
    requires Exclusive(s)
    ensures Separate(s)
  {
    forall pid | pid in s.procs && s.procs[pid].Holding? ensures s.procs[pid].element !in s.lists.pending {
      var p := s.procs[pid];
      assert HolderOk(s, p);
      if p.element in s.lists.pending {
        StoredOnce(s, p.element, p.element, p.envelope.id);
      }
    }
    forall a, b | a in s.procs && b in s.procs && a != b ensures !SameElement(s.procs[a], s.procs[b]) {
      assert Apart(s.procs[a], s.procs[b]) && HolderOk(s, s.procs[a]) && HolderOk(s, s.procs[b]);
    }
  }

  /** A claimed message is pending only once. */
  lemma ClaimedOnce(s: State)
    requires Conserved(s) && |s.lists.pending| > 0 && Peeked(s.lists.pending, Right).Message?
    ensures Peeked(s.lists.pending, Right) !in Moved(s.lists, Pending, InProgress, Right, Left).pending
  {
    var list := s.lists.pending;
    var c := Peeked(list, Right);
    assert CountOf(s.lists, c.envelope.id) <= 1;
    assert list == list[..|list| - 1] + [c];
    CountAppend(list[..|list| - 1], [c], c.envelope.id);
    CountOne(c, c.envelope.id);
    if c in list[..|list| - 1] {
      CountMember(list[..|list| - 1], c, c.envelope.id);
    }
  }

  lemma ClaimSeparate(s: State, a: Action)
    requires Separate(s) && a.command.Claim?
    ensures Separate(Apply(s, a))
  {
    ConservedStep(s, a);
    if Allowed(s, a) && !a.reply.LostBeforeApply? && |s.lists.pending| > 0 {
      ClaimStored(s.lists);
      if Peeked(s.lists.pending, Right).Message? {
        ClaimedOnce(s);
      }
    }
  }

  lemma {:induction false} ClaimsSeparate(s: State, claims: seq<Action>, n: nat)
    requires Separate(s) && ClaimsOnly(claims) && n <= |claims|
    ensures Separate(RunFrom(s, claims, n))
  {
    if n > 0 {
      ClaimsSeparate(s, claims, n - 1);
      ClaimSeparate(RunFrom(s, claims, n - 1), claims[n - 1]);
    }
  }

  lemma SeparateOneHolder(s: State)
    requires Separate(s)
    ensures !TwoHolders(s)
  {
  }

  /** `k` claims by processes from `first` on. */
  function Claims(first: Pid, k: nat): seq<Action> {
    if k == 0 then [] else Claims(first, k - 1) + [Action(first + k - 1, Claim, Arrives)]
  }

  ghost predicate Unused(s: State, first: Pid) {
    forall pid | pid in s.procs :: pid < first
  }

  lemma {:induction false} FreshPid(used: set<Pid>) returns (first: Pid)
    ensures forall pid | pid in used :: pid < first
    decreases used
  {
    if used == {} {
      first := 0;
    } else {
      var pid :| pid in used;
      var rest := FreshPid(used - {pid});
      first := if pid < rest then rest else pid + 1;
      assert forall other | other in used :: other == pid || other in used - {pid};
    }
  }

  lemma {:induction false} RunFromPrefix(s: State, a: seq<Action>, b: seq<Action>, n: nat)
    requires n <= |a|
    ensures RunFrom(s, a + b, n) == RunFrom(s, a, n)
  {
    if n > 0 {
      RunFromPrefix(s, a, b, n - 1);
    }
  }

  /** An answered claim of an idle process. */
  lemma ClaimApplies(s: State, pid: Pid)
    requires pid !in s.procs && s.lists.pending != []
    ensures var s', m := Apply(s, Action(pid, Claim, Arrives)), |s.lists.pending| - 1;
            var x := s.lists.pending[m];
            && s'.lists.pending == s.lists.pending[..m] && x in s'.lists.inProgress
            && s'.procs == s.procs[pid := if x.Message? then Holding(x, x.envelope.CountAttempt()) else Discarding(x)]
  {
  }

  /** The claims take the oldest pending elements and leave the other processes alone. */
  lemma {:induction false} ClaimsDrain(s: State, first: Pid, k: nat)
    requires Unused(s, first) && k <= |s.lists.pending|
    ensures |Claims(first, k)| == k && ClaimsOnly(Claims(first, k))
    ensures var s' := RunFrom(s, Claims(first, k), k);
            && s'.lists.pending == s.lists.pending[..|s.lists.pending| - k]
            && Unused(s', first + k)
            && (forall pid | pid in s.procs :: pid in s'.procs && s'.procs[pid] == s.procs[pid])
            && (k > 0 && s.lists.pending[|s.lists.pending| - k].Message? ==>
                  && ProcOf(s', first + k - 1).Holding?
                  && ProcOf(s', first + k - 1).element == s.lists.pending[|s.lists.pending| - k]
                  && s.lists.pending[|s.lists.pending| - k] in s'.lists.inProgress)
  {
    hide Apply;
    if k > 0 {
      ClaimsDrain(s, first, k - 1);
      RunFromPrefix(s, Claims(first, k - 1), [Action(first + k - 1, Claim, Arrives)], k - 1);
      ClaimApplies(RunFrom(s, Claims(first, k - 1), k - 1), first + k - 1);
    }
  }

  /** Claims come to every pending element. */
  lemma PendingIsClaimed(s: State, pid: Pid)
    requires Conserved(s) && ProcOf(s, pid).Holding? && ProcOf(s, pid).element in s.lists.pending
    ensures ClaimsClash(s)
  {
    var x := ProcOf(s, pid).element;
    var i :| 0 <= i < |s.lists.pending| && s.lists.pending[i] == x;
    var k := |s.lists.pending| - i;
    var first := FreshPid(s.procs.Keys);
    ClaimsDrain(s, first, k);
    var claims := Claims(first, k);
    assert SameElement(ProcOf(RunFrom(s, claims, k), pid), ProcOf(RunFrom(s, claims, k), first + k - 1));
  }

  lemma TwoClash(s: State)
    requires TwoHolders(s)
    ensures ClaimsClash(s)
  {
    var none: seq<Action> := [];
    assert RunFrom(s, none, 0) == s && ClaimsOnly(none);
  }

  /** Claims alone can make two processes hold one element if and only if two do already or a held
      element is pending. */
  lemma ClashExactlyWhen(s: State)
    requires Conserved(s)
    ensures ClaimsClash(s) <==> !Separate(s)
  {
    if Separate(s) {
      forall claims, n: nat | n <= |claims| && ClaimsOnly(claims) ensures !TwoHolders(RunFrom(s, claims, n)) {
        ClaimsSeparate(s, claims, n);
        SeparateOneHolder(RunFrom(s, claims, n));
      }
    } else if pid :| pid in s.procs && s.procs[pid].Holding? && s.procs[pid].element in s.lists.pending {
      PendingIsClaimed(s, pid);
    } else {
      var a, b :| a in s.procs && b in s.procs && a != b && SameElement(s.procs[a], s.procs[b]);
      assert SameElement(ProcOf(s, a), ProcOf(s, b));
      TwoClash(s);
    }
  }

  // ---------------------------------------------------------------- what enters pending

  /** The elements that an action puts into pending. */
  function Enters(s: State, a: Action): seq<Raw> {
    var p := ProcOf(s, a.pid);
    if a.reply.LostBeforeApply? || !Allowed(s, a) then []
    else match a.command
         case Publish(envelope) => [Message(envelope)]
         case Intrude(text) => [Malformed(text)]
         case Retry | Release =>
           if p.Holding? && p.element in s.lists.inProgress then [Message(Sent(a.command, p.envelope))] else []
         case RecoverBatch(batch) => s.lists.inProgress[..Min(batch, |s.lists.inProgress|)]
         case RepublishBatch(batch) => s.lists.failed[|s.lists.failed| - Min(batch, |s.lists.failed|)..]
         case _ => []
  }

  /** An action that puts an element into pending that some process holds afterwards. */
  ghost predicate Restores(s: State, a: Action) {
    exists pid :: ProcOf(Apply(s, a), pid).Holding? && ProcOf(Apply(s, a), pid).element in Enters(s, a)
  }

  lemma MovedPending(l: Lists)
    ensures |l.inProgress| > 0 ==>
              var l' := Moved(l, InProgress, Pending, Left, Right);
              l'.pending == l.pending + [l.inProgress[0]] && l'.inProgress == l.inProgress[1..]
    ensures |l.failed| > 0 ==>
              var l', m := Moved(l, Failed, Pending, Right, Left), |l.failed| - 1;
              l'.pending == [l.failed[m]] + l.pending && l'.failed == l.failed[..m]
  {
  }

  lemma Prefixes<T>(s: seq<T>, n: nat)
    requires n > 0 && |s| > 0
    ensures s[..Min(n, |s|)] == [s[0]] + s[1..][..Min(n - 1, |s| - 1)]
  {
  }

  lemma Suffixes<T>(s: seq<T>, n: nat)
    requires n > 0 && |s| > 0
    ensures var m := |s| - 1;
            s[|s| - Min(n, |s|)..] == s[..m][m - Min(n - 1, m)..] + [s[m]]
  {
  }

  lemma {:induction false} RecoverBatchPending(l: Lists, n: nat)
    ensures Moves(l, InProgress, Pending, Left, Right, n).pending == l.pending + l.inProgress[..Min(n, |l.inProgress|)]
    decreases n
  {
    hide Moved;
    if n > 0 && |l.inProgress| > 0 {
      MovedPending(l);
      RecoverBatchPending(Moved(l, InProgress, Pending, Left, Right), n - 1);
      Prefixes(l.inProgress, n);
    }
  }

  lemma {:induction false} RepublishBatchPending(l: Lists, n: nat)
    ensures Moves(l, Failed, Pending, Right, Left, n).pending == l.failed[|l.failed| - Min(n, |l.failed|)..] + l.pending
    decreases n
  {
    hide Moved;
    if n > 0 && |l.failed| > 0 {
      MovedPending(l);
      RepublishBatchPending(Moved(l, Failed, Pending, Right, Left), n - 1);
      Suffixes(l.failed, n);
    }
  }

  /** What is pending after an action was pending before or enters with it. */
  lemma PendingAfter(s: State, a: Action)
    ensures forall y | y in Apply(s, a).lists.pending :: y in s.lists.pending || y in Enters(s, a)
    ensures forall y | y in Enters(s, a) :: y in Apply(s, a).lists.pending
  {
    if Allowed(s, a) && !a.reply.LostBeforeApply? {
      match a.command {
        case Publish(_) =>
        case Intrude(_) =>
        case Claim =>
        case Discard =>
        case Acknowledge =>
        case Retry =>
        case MoveToFailed =>
        case Release =>
        case RecoverBatch(batch) => RecoverBatchPending(s.lists, batch);
        case RepublishBatch(batch) => RepublishBatchPending(s.lists, batch);
        case Clear(_) =>
        case Crash =>
      }
    }
  }

  /** Only a claim gives a process another element. */
  lemma HolderAfter(s: State, a: Action, pid: Pid)
    requires !a.command.Claim? && ProcOf(Apply(s, a), pid).Holding?
    ensures ProcOf(s, pid).Holding? && ProcOf(Apply(s, a), pid).element == ProcOf(s, pid).element
  {
  }

  lemma SeparateStep(s: State, a: Action)
    requires Separate(s) && !Restores(s, a)
    ensures Separate(Apply(s, a))
  {
    hide Apply;
    var s' := Apply(s, a);
    ConservedStep(s, a);
    PendingAfter(s, a);
    if a.command.Claim? {
      ClaimSeparate(s, a);
    } else {
      forall pid | pid in s'.procs && s'.procs[pid].Holding? ensures s'.procs[pid].element !in s'.lists.pending {
        HolderAfter(s, a, pid);
        assert ProcOf(s', pid).Holding?;
      }
      forall x, y | x in s'.procs && y in s'.procs && x != y ensures !SameElement(s'.procs[x], s'.procs[y]) {
        if SameElement(s'.procs[x], s'.procs[y]) {
          HolderAfter(s, a, x);
          HolderAfter(s, a, y);
        }
      }
    }
  }

  /** After an action in a separate state, claims alone can make two processes hold one element if
      and only if the action puts an element into pending that some process still holds. */
  lemma ClashAfter(s: State, a: Action)
    requires Separate(s)
    ensures ClaimsClash(Apply(s, a)) <==> Restores(s, a)
  {
    hide Apply;
    hide Enters;
    ConservedStep(s, a);
    ClashExactlyWhen(Apply(s, a));
    if Restores(s, a) {
      var pid :| ProcOf(Apply(s, a), pid).Holding? && ProcOf(Apply(s, a), pid).element in Enters(s, a);
      PendingAfter(s, a);
    } else {
      SeparateStep(s, a);
    }
  }

  // ---------------------------------------------------------------- whole runs

  lemma {:induction false} RunSeparate(actions: seq<Action>, n: nat)
    requires n <= |actions| && forall i | 0 <= i < n :: !Restores(Run(actions, i), actions[i])
    ensures Separate(Run(actions, n))
  {
    hide Apply;
    hide Restores;
    RedisConserves(actions, n);
    if n > 0 {
      RunSeparate(actions, n - 1);
      SeparateStep(Run(actions, n - 1), actions[n - 1]);
    }
  }

  /** In any run, whatever replies are lost and whatever is recovered or republished beside its
      delivery, claims could at no point make two processes hold one element if and only if no
      action put an element into pending that some process still held. */
  lemma NoClashExactlyWhen(actions: seq<Action>, n: nat)
    requires n <= |actions|
    ensures (forall i | 0 <= i <= n :: !ClaimsClash(Run(actions, i)))
       <==> (forall i | 0 <= i < n :: !Restores(Run(actions, i), actions[i]))
  {
    hide Apply;
    hide Restores;
    hide Separate;
    hide ClaimsClash;
    if forall i | 0 <= i < n :: !Restores(Run(actions, i), actions[i]) {
      forall i | 0 <= i <= n ensures !ClaimsClash(Run(actions, i)) {
        RunSeparate(actions, i);
        RedisConserves(actions, i);
        ClashExactlyWhen(Run(actions, i));
      }
    } else {
      var i :| 0 <= i < n && Restores(Run(actions, i), actions[i]);
      FirstRestore(actions, i);
    }
  }

  /** The first such action makes a clash possible. */
  lemma {:induction false} FirstRestore(actions: seq<Action>, i: nat)
    requires i < |actions| && Restores(Run(actions, i), actions[i])
    ensures exists j: nat | j <= i + 1 :: ClaimsClash(Run(actions, j))
  {
    hide Apply;
    hide Restores;
    hide Separate;
    hide ClaimsClash;
    if j: nat :| j < i && Restores(Run(actions, j), actions[j]) {
      FirstRestore(actions, j);
    } else {
      RunSeparate(actions, i);
      ClashAfter(Run(actions, i), actions[i]);
      assert Run(actions, i + 1) == Apply(Run(actions, i), actions[i]);
    }
  }

  // ---------------------------------------------------------------- which actions

  ghost predicate Held(s: State, x: Raw) {
    exists pid :: ProcOf(s, pid).Holding? && ProcOf(s, pid).element == x
  }

  lemma RestoresHeld(s: State, a: Action)
    ensures Restores(s, a) <==> exists x | x in Enters(s, a) :: Held(Apply(s, a), x)
  {
    hide Apply;
    hide Enters;
    if pid :| ProcOf(Apply(s, a), pid).Holding? && ProcOf(Apply(s, a), pid).element in Enters(s, a) {
      assert Held(Apply(s, a), ProcOf(Apply(s, a), pid).element);
    }
  }

  /** A retry or a release does so exactly when the server applies it and the bytes that it stores
      are those of an element held afterwards. No other settle does. */
  lemma SettleRestores(s: State, pid: Pid, command: Command, reply: Reply)
    requires ProcOf(s, pid).Holding?
    requires command.Retry? || command.MoveToFailed? || command.Release? || command.Acknowledge?
    ensures var p, s' := ProcOf(s, pid), Apply(s, Action(pid, command, reply));
            Restores(s, Action(pid, command, reply))
            <==> && (command.Retry? || command.Release?) && reply != LostBeforeApply
                 && p.element in s.lists.inProgress && Held(s', Message(Sent(command, p.envelope)))
  {
    hide Apply;
    hide Held;
    RestoresHeld(s, Action(pid, command, reply));
  }

  lemma BatchHolders(s: State, a: Action, x: Raw)
    requires a.command.RecoverBatch? || a.command.RepublishBatch?
    ensures Held(Apply(s, a), x) <==> Held(s, x)
  {
    var s' := Apply(s, a);
    assert forall q :: ProcOf(s', q) == ProcOf(s, q);
  }

  function RecoveredBatch(s: State, batch: nat): seq<Raw> {
    s.lists.inProgress[..Min(batch, |s.lists.inProgress|)]
  }

  function RepublishedBatch(s: State, batch: nat): seq<Raw> {
    s.lists.failed[|s.lists.failed| - Min(batch, |s.lists.failed|)..]
  }

  /** A batch of a recovery does so exactly when it takes a held element out of progress, and one
      of a republish exactly when it takes a held element out of failed. */
  lemma BatchRestores(s: State, pid: Pid, batch: nat, reply: Reply)
    ensures Restores(s, Action(pid, RecoverBatch(batch), reply))
       <==> reply != LostBeforeApply && exists x | x in RecoveredBatch(s, batch) :: Held(s, x)
    ensures Restores(s, Action(pid, RepublishBatch(batch), reply))
       <==> reply != LostBeforeApply && exists x | x in RepublishedBatch(s, batch) :: Held(s, x)
  {
    var recover, republish := Action(pid, RecoverBatch(batch), reply), Action(pid, RepublishBatch(batch), reply);
    RestoresHeld(s, recover);
    RestoresHeld(s, republish);
    hide Apply;
    hide Held;
    forall x ensures Held(Apply(s, recover), x) == Held(s, x) && Held(Apply(s, republish), x) == Held(s, x) {
      BatchHolders(s, recover, x);
      BatchHolders(s, republish, x);
    }
  }

  /** In a calm state, a release does so exactly when it is applied and its reply is lost. */
  lemma CalmReleaseRestores(s: State, pid: Pid, reply: Reply)
    requires CalmlyReachable(s) && ProcOf(s, pid).Holding?
    ensures Restores(s, Action(pid, Release, reply))
       <==> reply == LostAfterApply && ProcOf(s, pid).element in s.lists.inProgress
  {
    hide Restores;
    hide Conserved;
    hide CalmRun;
    var actions, n: nat :| n <= |actions| && CalmRun(actions) && s == Run(actions, n);
    CalmRunExclusive(actions, n);
    ExclusiveSeparate(s);
    var p, s' := ProcOf(s, pid), Apply(s, Action(pid, Release, reply));
    assert HolderOk(s, p);
    assert Message(Sent(Release, p.envelope)) == p.element;
    SettleRestores(s, pid, Release, reply);
    if reply == LostAfterApply {
      assert ProcOf(s', pid).Holding? && ProcOf(s', pid).element == p.element;
    }
  }

  // ---------------------------------------------------------------- a stale retry

  /** A retry whose reply is lost leaves its sender with the old bytes. A release that fails before
      it is applied and is then repeated brings them back, and a third process claims them. */
  function StaleRetry(e: Envelope): seq<Action> {
    [Action(0, Publish(e), Arrives),
     Action(1, Claim, Arrives),
     Action(1, Retry, LostAfterApply),
     Action(2, Claim, Arrives),
     Action(2, Release, LostBeforeApply),
     Action(2, Release, Arrives),
     Action(3, Claim, Arrives),
     Action(1, Retry, Arrives)]
  }

  lemma StaleRetryFirst(e: Envelope)
    requires e.attempts + 1 < U32_MAX
    ensures var x, s, next := Message(e), Run(StaleRetry(e), 4), Message(e.CountAttempt());
            && s.lists == Lists([], [next], [])
            && s.procs == map[0 := Idle, 1 := Holding(x, e.CountAttempt()),
                              2 := Holding(next, e.CountAttempt().CountAttempt())]
  {
    var actions, x, next := StaleRetry(e), Message(e), Message(e.CountAttempt());
    assert Run(actions, 1) == Apply(Initial(), actions[0]);
    assert Run(actions, 1).lists == Lists([x], [], []);
    assert Run(actions, 2) == Apply(Run(actions, 1), actions[1]);
    assert Run(actions, 2).lists == Lists([], [x], []);
    assert ProcOf(Run(actions, 2), 1) == Holding(x, e.CountAttempt());
    assert Run(actions, 3) == Apply(Run(actions, 2), actions[2]);
    assert Run(actions, 3).lists == Lists([next], [], []);
    assert ProcOf(Run(actions, 3), 1) == Holding(x, e.CountAttempt());
    assert Run(actions, 4) == Apply(Run(actions, 3), actions[3]);
  }

  /** After seven actions two processes hold the message, although every release that was applied
      also arrived. The eighth, a repeated retry of the first, takes the claim of the third process
      out of progress. */
  lemma StaleRetryTakesClaim(e: Envelope)
    requires e.attempts + 1 < U32_MAX
    ensures var x, s, s' := Message(e), Run(StaleRetry(e), 7), Run(StaleRetry(e), 8);
            && ProcOf(s, 1) == ProcOf(s, 3) == ProcOf(s', 3) == Holding(x, e.CountAttempt())
            && s.lists == Lists([], [x], []) && s'.lists == Lists([Message(e.CountAttempt())], [], [])
  {
    var actions, x, next := StaleRetry(e), Message(e), Message(e.CountAttempt());
    StaleRetryFirst(e);
    assert Run(actions, 5) == Apply(Run(actions, 4), actions[4]);
    assert Run(actions, 5).lists == Lists([], [next], []);
    assert ProcOf(Run(actions, 5), 2) == Holding(next, e.CountAttempt());
    assert Run(actions, 6) == Apply(Run(actions, 5), actions[5]);
    assert Run(actions, 6).lists == Lists([x], [], []);
    assert Run(actions, 7) == Apply(Run(actions, 6), actions[6]);
    assert Run(actions, 7).lists == Lists([], [x], []);
    assert ProcOf(Run(actions, 7), 1) == Holding(x, e.CountAttempt());
    assert Run(actions, 8) == Apply(Run(actions, 7), actions[7]);
  }
}
