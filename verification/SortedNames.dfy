/** A sorted directory listing, and the file contents in the order of that listing. */
module SortedNames {
  import opened Messages
  import opened Disk

  ghost predicate Below(a: set<Name>, b: set<Name>) {
    forall x, y | x in a && y in b :: x < y
  }

  lemma BelowDisjoint(a: set<Name>, b: set<Name>)
    requires Below(a, b)
    ensures a !! b
  {
    assert forall x | x in a :: x !in b;
  }

  predicate IsLeast(s: set<Name>, m: Name) {
    m in s && forall x | x in s :: m <= x
  }

  lemma HasLeast(s: set<Name>)
    requires s != {}
    ensures exists m :: IsLeast(s, m)
  {
    var x :| x in s;
    if s == {x} {
      assert IsLeast(s, x);
    } else {
      HasLeast(s - {x});
      var m :| IsLeast(s - {x}, m);
      assert s == (s - {x}) + {x};
      assert IsLeast(s, if m <= x then m else x);
    }
  }

  function Least(s: set<Name>): (m: Name)
    requires s != {}
    ensures IsLeast(s, m)
  {
    HasLeast(s);
    var m :| IsLeast(s, m);
    m
  }

  /** The names of a directory listing after its sort. */
  function Sorted(s: set<Name>): seq<Name> {
    if s == {} then [] else [Least(s)] + Sorted(s - {Least(s)})
  }

  lemma {:induction false} SortedMembers(s: set<Name>)
    ensures |Sorted(s)| == |s|
    ensures forall n :: n in Sorted(s) <==> n in s
  {
    if s != {} {
      SortedMembers(s - {Least(s)});
    }
  }

  lemma SortedFrom(s: set<Name>, m: Name)
    requires m in s && forall x | x in s :: m <= x
    ensures Sorted(s) == [m] + Sorted(s - {m})
  {
    assert Least(s) == m;
  }

  lemma {:induction false} SortedUnion(a: set<Name>, b: set<Name>)
    requires Below(a, b)
    ensures Sorted(a + b) == Sorted(a) + Sorted(b)
  {
    if a == {} {
      assert a + b == b;
    } else {
      var m := Least(a);
      forall x | x in a + b ensures m <= x {}
      SortedFrom(a, m);
      SortedFrom(a + b, m);
      BelowDisjoint(a, b);
      assert (a + b) - {m} == (a - {m}) + b;
      SortedUnion(a - {m}, b);
    }
  }

  /** The contents of a directory in name order. */
  function Contents(m: map<Name, Raw>): seq<Raw> {
    SortedMembers(m.Keys);
    InOrder(m, Sorted(m.Keys))
  }

  function InOrder(m: map<Name, Raw>, names: seq<Name>): seq<Raw>
    requires forall n | n in names :: n in m
  {
    if names == [] then [] else [m[names[0]]] + InOrder(m, names[1..])
  }

  lemma ContentsUnion(a: map<Name, Raw>, b: map<Name, Raw>)
    requires Below(a.Keys, b.Keys)
    ensures Contents(a + b) == Contents(a) + Contents(b)
  {
    assert (a + b).Keys == a.Keys + b.Keys;
    SortedUnion(a.Keys, b.Keys);
    BelowDisjoint(a.Keys, b.Keys);
    SortedMembers(a.Keys);
    SortedMembers(b.Keys);
    SortedMembers(a.Keys + b.Keys);
    InOrderUnion(a, b, Sorted(a.Keys), Sorted(b.Keys));
  }

  lemma {:induction false} InOrderUnion(a: map<Name, Raw>, b: map<Name, Raw>, s: seq<Name>, t: seq<Name>)
    requires a.Keys !! b.Keys
    requires (forall n | n in s :: n in a) && (forall n | n in t :: n in b)
    requires forall n | n in s + t :: n in a + b
    ensures InOrder(a + b, s + t) == InOrder(a, s) + InOrder(b, t)
  {
    if s == [] {
      assert s + t == t;
      InOrderLater(a, b, t);
    } else {
      assert (s + t)[1..] == s[1..] + t;
      assert s[0] in a.Keys;
      InOrderUnion(a, b, s[1..], t);
    }
  }

  lemma {:induction false} InOrderLater(a: map<Name, Raw>, b: map<Name, Raw>, t: seq<Name>)
    requires forall n | n in t :: n in b
    ensures InOrder(a + b, t) == InOrder(b, t)
  {
    if t != [] {
      InOrderLater(a, b, t[1..]);
    }
  }

  lemma ContentsOne(n: Name, c: Raw)
    ensures Contents(map[n := c]) == [c]
  {
    assert map[n := c].Keys == {n};
    assert {n} - {n} == {};
    SortedFrom({n}, n);
    assert Sorted({n}) == [n];
    assert InOrder(map[n := c], [n][1..]) == [];
  }

  /** A file with a new, largest name goes to the end. */
  lemma ContentsAppend(m: map<Name, Raw>, n: Name, c: Raw)
    requires forall x | x in m :: x < n
    ensures Contents(m[n := c]) == Contents(m) + [c]
  {
    assert m[n := c] == m + map[n := c];
    ContentsUnion(m, map[n := c]);
    ContentsOne(n, c);
  }

  function Before(m: map<Name, Raw>, n: Name): map<Name, Raw> {
    map x | x in m && x < n :: m[x]
  }

  function After(m: map<Name, Raw>, n: Name): map<Name, Raw> {
    map x | x in m && n < x :: m[x]
  }

  /** The files before a name, the named file, and the files after it. */
  lemma ContentsSplit(m: map<Name, Raw>, n: Name)
    requires n in m
    ensures Contents(m) == Contents(Before(m, n)) + [m[n]] + Contents(After(m, n))
    ensures Contents(m - {n}) == Contents(Before(m, n)) + Contents(After(m, n))
  {
    var before, after := Before(m, n), After(m, n);
    assert m - {n} == before + after;
    ContentsUnion(before, after);
    var upTo := before[n := m[n]];
    assert m == upTo + after;
    ContentsAppend(before, n, m[n]);
    ContentsUnion(upTo, after);
  }

  /** Taking out the oldest file leaves the rest in order. */
  lemma ContentsOldest(m: map<Name, Raw>, n: Name)
    requires n in m && forall x | x in m :: n <= x
    ensures Contents(m) == [m[n]] + Contents(m - {n})
    ensures Sorted(m.Keys) == [n] + Sorted(m.Keys - {n})
  {
    ContentsSplit(m, n);
    assert Before(m, n) == map[];
    SortedFrom(m.Keys, n);
  }

  lemma {:induction false} InOrderAt(m: map<Name, Raw>, names: seq<Name>, i: nat)
    requires (forall n | n in names :: n in m) && i < |names|
    ensures |InOrder(m, names)| == |names| && InOrder(m, names)[i] == m[names[i]]
  {
    if |names| > 1 {
      InOrderAt(m, names[1..], if i == 0 then 0 else i - 1);
    }
  }

  lemma ContentsAt(m: map<Name, Raw>, i: nat)
    requires i < |m|
    ensures |Sorted(m.Keys)| == |Contents(m)| == |m| && Sorted(m.Keys)[i] in m
    ensures Contents(m)[i] == m[Sorted(m.Keys)[i]]
  {
    SortedMembers(m.Keys);
    InOrderAt(m, Sorted(m.Keys), i);
  }

  lemma ContentsLength(m: map<Name, Raw>)
    ensures |Contents(m)| == |m|
  {
    SortedMembers(m.Keys);
    if m.Keys != {} {
      InOrderAt(m, Sorted(m.Keys), 0);
    }
  }

  lemma SubsetSize<T>(a: set<T>, b: set<T>)
    requires a <= b
    ensures |a| <= |b|
  {
    assert b == a + (b - a);
  }
}
