/** The three Redis lists of a lane, left end first, and the list commands that the driver sends.
    The left end holds the newest element (redis/mod.rs:22-23). */
module RedisLists {
  import opened Integers
  import opened Messages
  import opened AbstractQueue

  datatype End = Left | Right

  datatype Lists = Lists(pending: seq<Raw>, inProgress: seq<Raw>, failed: seq<Raw>) {

    function Get(key: Stage): seq<Raw> {
      match key
      case Pending => pending
      case InProgress => inProgress
      case Failed => failed
    }

    function Put(key: Stage, list: seq<Raw>): Lists {
      match key
      case Pending => this.(pending := list)
      case InProgress => this.(inProgress := list)
      case Failed => this.(failed := list)
    }
  }

  function Reverse<T>(s: seq<T>): seq<T> {
    if s == [] then [] else Reverse(s[1..]) + [s[0]]
  }

  function ViewOf(lists: Lists): Queue {
    Queue(Reverse(lists.pending), Reverse(lists.inProgress), Reverse(lists.failed))
  }

  // ---------------------------------------------------------------- commands

  function Push<T>(list: seq<T>, end: End, x: T): seq<T> {
    if end == Left then [x] + list else list + [x]
  }

  function Peeked<T>(list: seq<T>, end: End): T
    requires list != []
  {
    if end == Left then list[0] else list[|list| - 1]
  }

  function Popped<T>(list: seq<T>, end: End): seq<T>
    requires list != []
  {
    if end == Left then list[1..] else list[..|list| - 1]
  }

  /** LMOVE: one element from an end of one list to an end of another. */
  function Moved(lists: Lists, source: Stage, destination: Stage, from: End, to: End): Lists
    requires |lists.Get(source)| > 0
  {
    var x := Peeked(lists.Get(source), from);
    var popped := lists.Put(source, Popped(lists.Get(source), from));
    popped.Put(destination, Push(popped.Get(destination), to, x))
  }

  /** LREM with count 1: removes the first equal element from the left. */
  function RemoveFirst<T(==)>(list: seq<T>, x: T): seq<T> {
    if list == [] then []
    else if list[0] == x then list[1..]
    else [list[0]] + RemoveFirst(list[1..], x)
  }

  /** LRANGE: both ends are inclusive, and a negative index counts from the right end. */
  function Range<T>(list: seq<T>, start: int, stop: int): seq<T> {
    var s := if start < 0 then |list| + start else start;
    var e := if stop < 0 then |list| + stop else stop;
    var low := if s < 0 then 0 else s;
    var high := if e >= |list| then |list| - 1 else e;
    if low > high || low >= |list| then [] else list[low..high + 1]
  }

  // ---------------------------------------------------------------- reversal

  lemma {:induction false} ReverseAppend<T>(a: seq<T>, b: seq<T>)
    ensures Reverse(a + b) == Reverse(b) + Reverse(a)
  {
    if a == [] {
      assert a + b == b;
    } else {
      assert (a + b)[1..] == a[1..] + b;
      ReverseAppend(a[1..], b);
      assert Reverse(b) + Reverse(a[1..]) + [a[0]] == Reverse(b) + (Reverse(a[1..]) + [a[0]]);
    }
  }

  lemma {:induction false} ReverseMembers<T>(s: seq<T>)
    ensures |Reverse(s)| == |s|
    ensures forall x :: x in Reverse(s) <==> x in s
  {
    if s != [] {
      ReverseMembers(s[1..]);
      assert s == [s[0]] + s[1..];
    }
  }

  /** What leaves and enters each end, oldest first. */
  lemma PushShows<T>(list: seq<T>, x: T)
    ensures Reverse(Push(list, Left, x)) == Reverse(list) + [x]
    ensures Reverse(Push(list, Right, x)) == [x] + Reverse(list)
  {
    assert ([x] + list)[1..] == list;
    ReverseAppend(list, [x]);
    assert Reverse([x]) == [x];
  }

  lemma PopShows<T>(list: seq<T>)
    requires list != []
    ensures Reverse(list) == Reverse(Popped(list, Left)) + [Peeked(list, Left)]
    ensures Reverse(list) == [Peeked(list, Right)] + Reverse(Popped(list, Right))
  {
    var n := |list| - 1;
    assert list == list[..n] + [list[n]];
    ReverseAppend(list[..n], [list[n]]);
    assert Reverse([list[n]]) == [list[n]];
  }

  /** LREM takes out the newest equal element. */
  lemma {:induction false} RemoveFirstShows<T>(list: seq<T>, x: T)
    ensures Reverse(RemoveFirst(list, x)) == RemoveNewest(Reverse(list), x)
  {
    if list != [] {
      var r := Reverse(list);
      assert r[..|r| - 1] == Reverse(list[1..]) && r[|r| - 1] == list[0];
      if list[0] != x {
        RemoveFirstShows(list[1..], x);
        assert ([list[0]] + RemoveFirst(list[1..], x))[1..] == RemoveFirst(list[1..], x);
      }
    }
  }

  /** A move takes one element off its source and leaves the third list alone. */
  lemma MovedParts(lists: Lists, source: Stage, destination: Stage, from: End, to: End)
    requires source != destination && |lists.Get(source)| > 0
    ensures var l', x := Moved(lists, source, destination, from, to), Peeked(lists.Get(source), from);
            && l'.Get(source) == Popped(lists.Get(source), from)
            && l'.Get(destination) == Push(lists.Get(destination), to, x)
            && forall other | other != source && other != destination :: l'.Get(other) == lists.Get(other)
  {
  }

  // ---------------------------------------------------------------- repeated moves

  /** `count` moves, or as many as there are elements. */
  function Moves(lists: Lists, source: Stage, destination: Stage, from: End, to: End, count: nat): Lists
    decreases count
  {
    if count == 0 || |lists.Get(source)| == 0 then lists
    else Moves(Moved(lists, source, destination, from, to), source, destination, from, to, count - 1)
  }

  lemma {:induction false} MovesAdd(lists: Lists, source: Stage, destination: Stage, from: End, to: End, a: nat, b: nat)
    ensures Moves(Moves(lists, source, destination, from, to, a), source, destination, from, to, b)
         == Moves(lists, source, destination, from, to, a + b)
    decreases a
  {
    if a > 0 && |lists.Get(source)| > 0 {
      MovesAdd(Moved(lists, source, destination, from, to), source, destination, from, to, a - 1, b);
    }
  }

  /** Moving from the newest end of in-progress to the oldest end of pending puts the in-progress
      elements before the pending ones, oldest claim first. */
  lemma {:induction false} RecoverMoves(lists: Lists)
    ensures ViewOf(Moves(lists, InProgress, Pending, Left, Right, |lists.inProgress|)) == ViewOf(lists).Recover().0
    decreases |lists.inProgress|
  {
    if lists.inProgress != [] {
      var next := Moved(lists, InProgress, Pending, Left, Right);
      RecoverOneShows(lists);
      RecoverMoves(next);
      assert Moves(lists, InProgress, Pending, Left, Right, |lists.inProgress|)
          == Moves(next, InProgress, Pending, Left, Right, |next.inProgress|);
    } else {
      assert [] + Reverse(lists.pending) == Reverse(lists.pending);
    }
  }

  /** Moving the newest claim in front of pending does not change what a recovery gives. */
  lemma RecoverOneShows(lists: Lists)
    requires lists.inProgress != []
    ensures var next := Moved(lists, InProgress, Pending, Left, Right);
            && |next.inProgress| == |lists.inProgress| - 1
            && ViewOf(next).Recover().0 == ViewOf(lists).Recover().0
  {
    var next := Moved(lists, InProgress, Pending, Left, Right);
    PushShows(lists.pending, lists.inProgress[0]);
    assert Reverse(lists.inProgress) + Reverse(lists.pending)
        == Reverse(next.inProgress) + ([lists.inProgress[0]] + Reverse(lists.pending));
  }

  /** The oldest failed element goes to the end of pending. */
  lemma RepublishOneShows(lists: Lists)
    requires lists.failed != []
    ensures var q := ViewOf(lists);
            && q.failed != []
            && ViewOf(Moved(lists, Failed, Pending, Right, Left))
               == Queue(q.pending + [q.failed[0]], q.inProgress, q.failed[1..])
  {
    PopShows(lists.failed);
    PushShows(lists.pending, Peeked(lists.failed, Right));
  }

  lemma RepublishFirst(q: Queue, count: nat)
    requires 0 < count <= |q.failed|
    ensures q.Republish(count).0 == Queue(q.pending + [q.failed[0]], q.inProgress, q.failed[1..]).Republish(count - 1).0
  {
    assert q.failed[..count] == [q.failed[0]] + q.failed[1..][..count - 1];
    assert q.failed[count..] == q.failed[1..][count - 1..];
  }

  /** Moving from the oldest end of failed to the newest end of pending appends the oldest failed
      elements in order. */
  lemma {:induction false} RepublishMoves(lists: Lists, count: nat)
    requires count <= |lists.failed|
    ensures ViewOf(Moves(lists, Failed, Pending, Right, Left, count)) == ViewOf(lists).Republish(count).0
    decreases count
  {
    if count == 0 {
      assert ViewOf(lists).Republish(0).0 == ViewOf(lists);
    } else {
      ReverseMembers(lists.failed);
      RepublishOneShows(lists);
      RepublishFirst(ViewOf(lists), count);
      RepublishMoves(Moved(lists, Failed, Pending, Right, Left), count - 1);
    }
  }

  // ---------------------------------------------------------------- peek

  /** isize::MAX - 1, the largest position that the driver asks for. */
  const INDEX_LIMIT := 0x7FFF_FFFF_FFFF_FFFE

  /** What the driver's peek reads: LRANGE from the right end, reversed. */
  function PeekedRange<T>(list: seq<T>, first: nat, last: nat): seq<T> {
    FromRight(list, Min(first, INDEX_LIMIT), Min(last, INDEX_LIMIT))
  }

  function FromRight<T>(list: seq<T>, first: nat, last: nat): seq<T> {
    Reverse(Range(list, -(last + 1), -(first + 1)))
  }

  lemma ReverseSlice<T>(s: seq<T>, low: nat, high: nat)
    requires low <= high <= |s|
    ensures |Reverse(s)| == |s|
    ensures Reverse(s[low..high]) == Reverse(s)[|s| - high..|s| - low]
  {
    var a, b, c := s[..low], s[low..high], s[high..];
    assert s == a + (b + c);
    ReverseAppend(a, b + c);
    ReverseAppend(b, c);
    ReverseMembers(s);
    ReverseMembers(b);
    ReverseMembers(c);
    SliceMiddle(Reverse(c), Reverse(b), Reverse(a));
  }

  lemma SliceMiddle<T>(a: seq<T>, b: seq<T>, c: seq<T>)
    ensures (a + b + c)[|a|..|a| + |b|] == b
  {
  }

  lemma RangeFromRight<T>(list: seq<T>, f: nat, l: nat)
    requires f <= l
    ensures f >= |list| ==> Range(list, -(l + 1), -(f + 1)) == []
    ensures f < |list| ==> Range(list, -(l + 1), -(f + 1)) == list[|list| - Min(l + 1, |list|)..|list| - f]
  {
  }

  lemma RangeShows<T>(list: seq<T>, f: nat, l: nat)
    requires f <= l
    ensures FromRight(list, f, l) == Window(Reverse(list), f, l)
  {
    ReverseMembers(list);
    RangeFromRight(list, f, l);
    if f < |list| {
      var low, high := |list| - Min(l + 1, |list|), |list| - f;
      ReverseSlice(list, low, high);
      assert Range(list, -(l + 1), -(f + 1)) == list[low..high];
    }
  }

  /** Reading from the right end and reversing gives the clamped positions, oldest first. */
  lemma PeekClamped<T>(list: seq<T>, first: nat, last: nat)
    requires first <= last
    ensures PeekedRange(list, first, last) == Window(Reverse(list), Min(first, INDEX_LIMIT), Min(last, INDEX_LIMIT))
  {
    RangeShows(list, Min(first, INDEX_LIMIT), Min(last, INDEX_LIMIT));
  }

  lemma PeekShows<T>(list: seq<T>, first: nat, last: nat)
    requires first <= last
    ensures last <= INDEX_LIMIT || |Reverse(list)| <= INDEX_LIMIT ==>
              PeekedRange(list, first, last) == Window(Reverse(list), first, last)
  {
    PeekClamped(list, first, last);
  }

  ghost predicate Distinct<T>(s: seq<T>) {
    forall i, j | 0 <= i < j < |s| :: s[i] != s[j]
  }

  /** The clamp shows exactly when a list is longer than it, the range reaches beyond it, and the
      range is not cut to the clamp by the end of the list. */
  lemma PeekExactlyWhen<T>(list: seq<T>, first: nat, last: nat)
    requires first <= last && Distinct(Reverse(list))
    ensures PeekedRange(list, first, last) == Window(Reverse(list), first, last)
       <==> var limit := 0x7FFF_FFFF_FFFF_FFFE;
            last <= limit || |list| <= limit || (first <= limit && |list| == limit + 1)
  {
    PeekClamped(list, first, last);
    ReverseMembers(list);
    WindowClamp(Reverse(list), first, last, INDEX_LIMIT);
  }

  lemma WindowClamp<T>(s: seq<T>, first: nat, last: nat, limit: nat)
    requires first <= last && Distinct(s)
    ensures Window(s, Min(first, limit), Min(last, limit)) == Window(s, first, last)
       <==> last <= limit || |s| <= limit || (first <= limit && |s| == limit + 1)
  {
    if last > limit && |s| > limit {
      if first > limit {
        assert Window(s, limit, limit)[0] == s[limit];
        assert first < |s| ==> Window(s, first, last)[0] == s[first];
      } else {
        assert |Window(s, first, limit)| == limit + 1 - first;
      }
    }
  }
}
