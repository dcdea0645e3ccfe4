/** The directories of one lane as the file store sees them, one call at a time, and the queue
    that they show. */
module Directories {
  import opened Messages
  import opened Disk
  import opened SortedNames
  import opened AbstractQueue

  type Files = map<Name, Raw>

  /** `settling` holds the hidden settling files of the in-progress directory under their base
      names. */
  datatype Dirs = Dirs(pending: Files, inProgress: Files, settling: Files, failed: Files) {

    function Get(dir: Dir): Files {
      match dir
      case PendingDir => pending
      case InProgressDir => inProgress
      case SettlingDir => settling
      case FailedDir => failed
    }

    function Put(dir: Dir, files: Files): Dirs {
      match dir
      case PendingDir => this.(pending := files)
      case InProgressDir => this.(inProgress := files)
      case SettlingDir => this.(settling := files)
      case FailedDir => this.(failed := files)
    }

    function Write(path: Path, contents: Raw): Dirs {
      Put(path.dir, Get(path.dir)[path.name := contents])
    }

    function Remove(path: Path): Dirs {
      Put(path.dir, Get(path.dir) - {path.name})
    }

    function Rename(from: Path, to: Path): Dirs
      requires from.name in Get(from.dir)
    {
      Remove(from).Write(to, Get(from.dir)[from.name])
    }

    /** The in-progress stage lists a settling file under its base name (store.rs:218-233). */
    function Claimed(): Files {
      inProgress + settling
    }
  }

  function ViewOf(d: Dirs): Queue {
    Queue(Contents(d.pending), Contents(d.Claimed()), Contents(d.failed))
  }

  ghost predicate Issued(files: Files, next: Name) {
    forall n | n in files :: n < next
  }

  /** Names were issued in order and belong to one file each, and every in-progress or settling
      name is smaller than every pending name. */
  ghost predicate Ordered(d: Dirs, next: Name) {
    && Issued(d.pending, next) && Issued(d.inProgress, next) && Issued(d.settling, next) && Issued(d.failed, next)
    && d.inProgress.Keys !! d.settling.Keys
    && d.failed.Keys !! d.inProgress.Keys + d.settling.Keys + d.pending.Keys
    && Below(d.inProgress.Keys, d.pending.Keys)
    && Below(d.settling.Keys, d.pending.Keys)
  }

  /** How many elements of a directory come before a name. */
  function Rank(m: Files, n: Name): nat {
    |Contents(Before(m, n))|
  }

  function RemoveAt<T>(s: seq<T>, i: nat): seq<T>
    requires i < |s|
  {
    s[..i] + s[i + 1..]
  }

  function Rest<T>(s: seq<T>): seq<T> {
    if s == [] then [] else s[1..]
  }

  lemma RemoveFromContents(m: Files, n: Name)
    requires n in m
    ensures Rank(m, n) < |Contents(m)| && Contents(m)[Rank(m, n)] == m[n]
    ensures Contents(m - {n}) == RemoveAt(Contents(m), Rank(m, n))
  {
    ContentsSplit(m, n);
  }

  // ---------------------------------------------------------------- what one operation shows

  /** A new file goes to the end of its stage. */
  lemma WriteShows(d: Dirs, next: Name, dir: Dir, c: Raw)
    requires Ordered(d, next) && (dir == PendingDir || dir == FailedDir)
    ensures Ordered(d.Write(Path(dir, next), c), next + 1)
    ensures ViewOf(d.Write(Path(dir, next), c)) == ViewOf(d).Append(StageOf(dir), c)
  {
    ContentsAppend(d.Get(dir), next, c);
  }

  function StageOf(dir: Dir): Stage {
    match dir
    case PendingDir => Pending
    case FailedDir => Failed
    case _ => InProgress
  }

  predicate Oldest(files: Files, n: Name) {
    n in files && forall x | x in files :: n <= x
  }

  lemma ClaimOrdered(d: Dirs, next: Name, n: Name)
    requires Ordered(d, next) && Oldest(d.pending, n)
    ensures Ordered(d.Rename(Path(PendingDir, n), Path(InProgressDir, n)), next)
    ensures forall x | x in d.Claimed() :: x < n
  {
    assert n !in d.settling && n !in d.inProgress by {
      BelowDisjoint(d.inProgress.Keys, d.pending.Keys);
      BelowDisjoint(d.settling.Keys, d.pending.Keys);
    }
  }

  /** Claiming the oldest pending file appends it to the in-progress stage. */
  lemma ClaimShows(d: Dirs, next: Name, n: Name)
    requires Ordered(d, next) && Oldest(d.pending, n)
    ensures var d', q := d.Rename(Path(PendingDir, n), Path(InProgressDir, n)), ViewOf(d);
            && Ordered(d', next)
            && q.pending == [d.pending[n]] + Rest(q.pending)
            && ViewOf(d') == Queue(Rest(q.pending), q.inProgress + [d.pending[n]], q.failed)
  {
    hide Contents;
    hide Ordered;
    var c := d.pending[n];
    ClaimOrdered(d, next, n);
    assert n !in d.Claimed();
    assert d.inProgress[n := c] + d.settling == d.Claimed()[n := c];
    ContentsAppend(d.Claimed(), n, c);
    ContentsOldest(d.pending, n);
  }

  /** Taking an in-progress file away, under either of its two names. */
  lemma RemovalShows(d: Dirs, next: Name, p: Path)
    requires Ordered(d, next) && StageOf(p.dir) == InProgress && p.name in d.Get(p.dir)
    ensures var q, i := ViewOf(d), Rank(d.Claimed(), p.name);
            && Ordered(d.Remove(p), next)
            && i < |q.inProgress| && q.inProgress[i] == d.Get(p.dir)[p.name]
            && ViewOf(d.Remove(p)) == q.(inProgress := RemoveAt(q.inProgress, i))
  {
    var n := p.name;
    if p.dir == InProgressDir {
      assert n !in d.settling;
      assert (d.inProgress - {n}) + d.settling == d.Claimed() - {n};
    } else {
      assert n !in d.inProgress;
      assert d.inProgress + (d.settling - {n}) == d.Claimed() - {n};
    }
    RemoveFromContents(d.Claimed(), n);
  }

  /** The rename to the settling name, and its way back, do not show. */
  lemma SettlingShows(d: Dirs, next: Name, from: Path, to: Path)
    requires Ordered(d, next) && from.name in d.Get(from.dir) && from.name == to.name
    requires (from.dir == InProgressDir && to.dir == SettlingDir)
             || (from.dir == SettlingDir && to.dir == InProgressDir)
    ensures var d' := d.Rename(from, to);
            Ordered(d', next) && d'.Claimed() == d.Claimed() && ViewOf(d') == ViewOf(d)
  {
    hide Contents;
    var d' := d.Rename(from, to);
    assert d'.Claimed() == d.Claimed();
  }

  /** Taking away the oldest file of the pending or failed directory. */
  lemma OldestShows(d: Dirs, next: Name, p: Path)
    requires Ordered(d, next) && (p.dir == PendingDir || p.dir == FailedDir) && Oldest(d.Get(p.dir), p.name)
    ensures var q, stage := ViewOf(d), StageOf(p.dir);
            && Ordered(d.Remove(p), next)
            && q.Get(stage) == [d.Get(p.dir)[p.name]] + Rest(q.Get(stage))
            && ViewOf(d.Remove(p)) == q.With(stage, Rest(q.Get(stage)))
  {
    ContentsOldest(d.Get(p.dir), p.name);
  }

  /** Moving the oldest file of one directory to the end of the other, under a new name. */
  lemma RehomeShows(d: Dirs, next: Name, from: Path, to: Path)
    requires Ordered(d, next) && Oldest(d.Get(from.dir), from.name) && to.name == next
    requires (from.dir == PendingDir && to.dir == FailedDir) || (from.dir == FailedDir && to.dir == PendingDir)
    ensures var q, stage, d' := ViewOf(d), StageOf(from.dir), d.Rename(from, to);
            && Ordered(d', next + 1)
            && q.Get(stage) == [d.Get(from.dir)[from.name]] + Rest(q.Get(stage))
            && ViewOf(d') == q.With(stage, Rest(q.Get(stage))).Append(StageOf(to.dir), d.Get(from.dir)[from.name])
  {
    OldestShows(d, next, from);
    assert to == Path(to.dir, next);
    WriteShows(d.Remove(from), next, to.dir, d.Get(from.dir)[from.name]);
  }

  /** A claim followed by a discard is one move from pending to failed. */
  lemma DiscardIsOneMove(d: Dirs, next: Name, n: Name)
    requires Ordered(d, next) && n in d.pending
    ensures var claimed := d.Rename(Path(PendingDir, n), Path(InProgressDir, n));
            n in claimed.inProgress
            && claimed.Rename(Path(InProgressDir, n), Path(FailedDir, next))
               == d.Rename(Path(PendingDir, n), Path(FailedDir, next))
  {
    assert n !in d.inProgress by { BelowDisjoint(d.inProgress.Keys, d.pending.Keys); }
    assert d.inProgress[n := d.pending[n]] - {n} == d.inProgress;
  }

  // ---------------------------------------------------------------- loops over a listing

  /** A listing as far as a loop has come: the rest of it is what is still in the directory. */
  ghost predicate Remaining(files: Files, listing: seq<Name>, i: nat) {
    i <= |listing| && listing[i..] == Sorted(files.Keys)
  }

  lemma RemainingHead(files: Files, listing: seq<Name>, i: nat)
    requires Remaining(files, listing, i) && i < |listing|
    ensures Oldest(files, listing[i])
    ensures Remaining(files - {listing[i]}, listing, i + 1)
  {
    var s, n := files.Keys, listing[i];
    assert s != {} && n == Least(s) by {
      assert listing[i..][0] == n;
    }
    assert listing[i + 1..] == listing[i..][1..] == Sorted(s - {n});
    assert (files - {n}).Keys == s - {n};
  }

  lemma RemainingDone(files: Files, listing: seq<Name>)
    requires Remaining(files, listing, |listing|)
    ensures files == map[]
  {
    SortedMembers(files.Keys);
  }
}
