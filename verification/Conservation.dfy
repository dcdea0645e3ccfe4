/** How many elements of a lane carry a message id, and what each queue operation does to that
    number. */
module Conservation {
  import opened Integers
  import opened Messages
  import opened AbstractQueue

  function CountId(s: seq<Raw>, id: nat): nat {
    if s == [] then 0
    else (if s[|s| - 1].HasId(id) then 1 else 0) + CountId(s[..|s| - 1], id)
  }

  function Total(q: Queue, id: nat): nat {
    CountId(q.pending, id) + CountId(q.inProgress, id) + CountId(q.failed, id)
  }

  function IdOf(x: Raw, id: nat): nat {
    if x.HasId(id) then 1 else 0
  }

  lemma {:induction false} CountAppend(a: seq<Raw>, b: seq<Raw>, id: nat)
    ensures CountId(a + b, id) == CountId(a, id) + CountId(b, id)
    decreases |b|
  {
    if b == [] {
      assert a + b == a;
    } else {
      assert (a + b)[..|a + b| - 1] == a + b[..|b| - 1];
      CountAppend(a, b[..|b| - 1], id);
    }
  }

  lemma CountOne(x: Raw, id: nat)
    ensures CountId([x], id) == IdOf(x, id)
  {
    assert [x][..0] == [];
  }

  lemma CountSplit(a: seq<Raw>, x: Raw, b: seq<Raw>, id: nat)
    ensures CountId(a + [x] + b, id) == CountId(a, id) + IdOf(x, id) + CountId(b, id)
  {
    CountAppend(a + [x], b, id);
    CountAppend(a, [x], id);
    CountOne(x, id);
  }

  lemma CountMember(s: seq<Raw>, x: Raw, id: nat)
    requires x in s && x.HasId(id)
    ensures CountId(s, id) >= 1
  {
    var i :| 0 <= i < |s| && s[i] == x;
    assert s == s[..i] + [x] + s[i + 1..];
    CountSplit(s[..i], x, s[i + 1..], id);
  }

  lemma {:induction false} CountNone(s: seq<Raw>, id: nat)
    requires CountId(s, id) >= 1
    ensures exists x :: x in s && x.HasId(id)
  {
    if !s[|s| - 1].HasId(id) {
      CountNone(s[..|s| - 1], id);
      var x :| x in s[..|s| - 1] && x.HasId(id);
      assert x in s;
    } else {
      assert s[|s| - 1] in s;
    }
  }

  /** Where RemoveNewest cuts. */
  lemma {:induction false} NewestSplit(s: seq<Raw>, x: Raw) returns (a: seq<Raw>, b: seq<Raw>)
    requires x in s
    ensures s == a + [x] + b && x !in b && RemoveNewest(s, x) == a + b
  {
    var n := |s| - 1;
    if s[n] == x {
      a, b := s[..n], [];
    } else {
      assert x in s[..n];
      var a', b' := NewestSplit(s[..n], x);
      a, b := a', b' + [s[n]];
      assert s == s[..n] + [s[n]];
      assert a' + [x] + b' + [s[n]] == a' + [x] + (b' + [s[n]]);
      assert a' + b' + [s[n]] == a' + (b' + [s[n]]);
    }
  }

  lemma RemoveNewestCount(s: seq<Raw>, x: Raw, id: nat)
    requires x in s
    ensures CountId(RemoveNewest(s, x), id) == CountId(s, id) - IdOf(x, id)
  {
    var a, b := NewestSplit(s, x);
    CountSplit(a, x, b, id);
    CountAppend(a, b, id);
  }

  /** Removing an element whose id occurs once is removing it where it is. */
  lemma OnlyOccurrence(s: seq<Raw>, i: nat, id: nat)
    requires i < |s| && s[i].HasId(id) && CountId(s, id) <= 1
    ensures RemoveNewest(s, s[i]) == s[..i] + s[i + 1..]
    ensures s[i] !in s[..i] + s[i + 1..]
    ensures CountId(s[..i] + s[i + 1..], id) == 0
  {
    var a, x, b := s[..i], s[i], s[i + 1..];
    assert s == a + [x] + b;
    CountSplit(a, x, b, id);
    CountAppend(a, b, id);
    if x in a + b {
      CountMember(a + b, x, id);
    }
    RemoveNewestSplit(a, x, b);
  }

  // ---------------------------------------------------------------- operations

  lemma AppendCount(q: Queue, stage: Stage, x: Raw, id: nat)
    ensures Total(q.Append(stage, x), id) == Total(q, id) + IdOf(x, id)
  {
    CountAppend(q.Get(stage), [x], id);
    CountOne(x, id);
  }

  lemma PopCount(s: seq<Raw>, id: nat)
    requires s != []
    ensures CountId(s, id) == IdOf(s[0], id) + CountId(s[1..], id)
  {
    assert s == [] + [s[0]] + s[1..];
    CountSplit([], s[0], s[1..], id);
  }

  lemma {:induction false} ClaimCount(q: Queue, id: nat)
    ensures Total(q.Claim().0, id) == Total(q, id)
    decreases |q.pending|
  {
    if q.pending != [] {
      var x := q.pending[0];
      PopCount(q.pending, id);
      CountOne(x, id);
      match x {
        case Message(_) =>
          CountAppend(q.inProgress, [x], id);
        case Malformed(_) =>
          CountAppend(q.failed, [x], id);
          ClaimCount(Queue(q.pending[1..], q.inProgress, q.failed + [x]), id);
      }
    }
  }

  lemma AcknowledgeCount(q: Queue, x: Raw, id: nat)
    ensures var (q', found) := q.Acknowledge(x);
            Total(q', id) == Total(q, id) - (if found then IdOf(x, id) else 0)
  {
    if x in q.inProgress {
      RemoveNewestCount(q.inProgress, x, id);
    }
  }

  lemma MoveClaimedCount(q: Queue, x: Raw, envelope: Envelope, target: Stage, id: nat)
    requires x.HasId(envelope.id)
    ensures Total(q.MoveClaimed(x, envelope, target).0, id) == Total(q, id)
  {
    var (q', found) := q.Acknowledge(x);
    AcknowledgeCount(q, x, id);
    AppendCount(q', target, Message(envelope), id);
  }

  lemma RecoverCount(q: Queue, id: nat)
    ensures Total(q.Recover().0, id) == Total(q, id)
  {
    CountAppend(q.inProgress, q.pending, id);
  }

  lemma RepublishCount(q: Queue, limit: nat, id: nat)
    ensures Total(q.Republish(limit).0, id) == Total(q, id)
  {
    var n := Min(limit, |q.failed|);
    assert q.failed == q.failed[..n] + q.failed[n..];
    CountAppend(q.failed[..n], q.failed[n..], id);
    CountAppend(q.pending, q.failed[..n], id);
  }

  lemma ClearCount(q: Queue, stage: Stage, id: nat)
    ensures Total(q.Clear(stage).0, id) == Total(q, id) - CountId(q.Get(stage), id)
  {
  }
}
