/** The memory and table budget of one plugin store (plugin/limiter.rs), and the host that asks
    it before each growth. */
module PluginLimiter {
  import opened Integers
  import opened Messages

  const TABLE_ELEMENTS_LIMIT := 100_000

  datatype Answer = Granted | Refused | LimitExceeded

  predicate BeyondMaximum(desired: usize, maximum: Option<usize>) {
    maximum.Some? && desired > maximum.value
  }

  /** The bytes or elements that a growth of one part would bring the total to. */
  function TotalAfter(total: usize, current: usize, desired: usize): usize {
    SaturatingAdd(SaturatingSub(total, current), desired)
  }

  /** What the growth of a part to `desired` makes of the total, as long as that is a usize. */
  lemma TotalCounts(total: usize, current: usize, desired: usize)
    requires current <= total
    ensures TotalAfter(total, current, desired)
         == if total - current + desired <= USIZE_MAX then total - current + desired else USIZE_MAX
  {
  }

  class PluginLimiter {
    const memoryLimitBytes: usize
    var memoryBytes: usize
    var lastMemoryGrowth: usize
    var tableElements: usize

    /** A failed growth never subtracts more than there is. */
    predicate Valid()
      reads this
    {
      lastMemoryGrowth <= memoryBytes && tableElements <= TABLE_ELEMENTS_LIMIT
    }

    constructor (limit: usize)
      ensures Valid() && memoryLimitBytes == limit && memoryBytes == 0 && tableElements == 0
    {
      memoryLimitBytes, memoryBytes, lastMemoryGrowth, tableElements := limit, 0, 0, 0;
    }

    method MemoryGrowing(current: usize, desired: usize, maximum: Option<usize>) returns (answer: Answer)
      requires Valid()
      modifies this
      ensures Valid() && tableElements == old(tableElements)
      // A growth to its maximum is allowed, and one to the limit.
      ensures answer == Refused <==> maximum.Some? && desired > maximum.value
      ensures answer != Refused ==>
                (answer == Granted <==> TotalAfter(old(memoryBytes), current, desired) <= memoryLimitBytes)
      ensures answer != Granted ==> memoryBytes == old(memoryBytes)
      ensures answer == Granted ==>
                && memoryBytes == TotalAfter(old(memoryBytes), current, desired)
                && lastMemoryGrowth == SaturatingSub(memoryBytes, old(memoryBytes))
    {
      if BeyondMaximum(desired, maximum) {
        return Refused;
      }
      var total := SaturatingAdd(SaturatingSub(memoryBytes, current), desired);
      if total > memoryLimitBytes {
        return LimitExceeded;
      }
      lastMemoryGrowth := total - (if memoryBytes < total then memoryBytes else total);
      memoryBytes := total;
      return Granted;
    }

    method MemoryGrowFailed()
      requires Valid()
      modifies this
      ensures Valid() && tableElements == old(tableElements)
      ensures memoryBytes == old(memoryBytes) - old(lastMemoryGrowth) && lastMemoryGrowth == 0
    {
      memoryBytes := memoryBytes - lastMemoryGrowth;
      lastMemoryGrowth := 0;
    }

    method TableGrowing(current: usize, desired: usize, maximum: Option<usize>) returns (answer: Answer)
      requires Valid()
      modifies this
      ensures Valid() && memoryBytes == old(memoryBytes) && lastMemoryGrowth == old(lastMemoryGrowth)
      ensures answer == Granted <==>
                && (maximum.Some? ==> desired <= maximum.value)
                && TotalAfter(old(tableElements), current, desired) <= 100_000
      ensures answer != LimitExceeded
      ensures tableElements == if answer == Granted then TotalAfter(old(tableElements), current, desired)
                               else old(tableElements)
    {
      if BeyondMaximum(desired, maximum) {
        return Refused;
      }
      var total := SaturatingAdd(SaturatingSub(tableElements, current), desired);
      if total > TABLE_ELEMENTS_LIMIT {
        return Refused;
      }
      tableElements := total;
      return Granted;
    }
  }

  // ---------------------------------------------------------------- the host

  function Sum(sizes: seq<usize>): nat {
    if sizes == [] then 0 else sizes[|sizes| - 1] + Sum(sizes[..|sizes| - 1])
  }

  lemma {:induction false} SumUpdate(sizes: seq<usize>, i: nat, size: usize)
    requires i < |sizes|
    ensures Sum(sizes[i := size]) == Sum(sizes) - sizes[i] + size
    ensures sizes[i] <= Sum(sizes)
  {
    var n := |sizes| - 1;
    if i < n {
      SumUpdate(sizes[..n], i, size);
      assert sizes[i := size][..n] == sizes[..n][i := size];
    } else {
      assert sizes[i := size][..n] == sizes[..n];
    }
  }

  /** A plugin's request. A new memory or table grows from nothing. `hostFails` says that the
      host cannot grow although the limiter allowed it. */
  datatype Request =
    | GrowMemory(i: nat, delta: usize, maximum: Option<usize>, hostFails: bool)
    | NewMemory(size: usize, maximum: Option<usize>, hostFails: bool)
    | GrowTable(i: nat, delta: usize, maximum: Option<usize>, hostFails: bool)
    | NewTable(size: usize, maximum: Option<usize>, hostFails: bool)

  /** The sizes that a plugin really has, and the table elements that were allowed and then not
      grown. */
  datatype Sizes = Sizes(memories: seq<usize>, tables: seq<usize>, leaked: nat)

  /** A growth fits when the request allows it and the sum of the sizes stays within the limit. */
  predicate Fits(sum: nat, current: usize, desired: nat, maximum: Option<usize>, limit: usize) {
    desired <= USIZE_MAX && (maximum.Some? ==> desired <= maximum.value) && sum - current + desired <= limit
  }

  /** What a request does, told by the sizes alone. */
  function Next(s: Sizes, request: Request, limit: usize): Sizes {
    match request
    case GrowMemory(i, delta, maximum, hostFails) =>
      if i < |s.memories| && Fits(Sum(s.memories), s.memories[i], s.memories[i] + delta, maximum, limit) && !hostFails
      then s.(memories := s.memories[i := s.memories[i] + delta]) else s
    case NewMemory(size, maximum, hostFails) =>
      if Fits(Sum(s.memories), 0, size, maximum, limit) && !hostFails then s.(memories := s.memories + [size]) else s
    case GrowTable(i, delta, maximum, hostFails) =>
      if i < |s.tables| && Fits(Sum(s.tables) + s.leaked, s.tables[i], s.tables[i] + delta, maximum,
                                TABLE_ELEMENTS_LIMIT)
      then if hostFails then s.(leaked := s.leaked + delta) else s.(tables := s.tables[i := s.tables[i] + delta])
      else s
    case NewTable(size, maximum, hostFails) =>
      if Fits(Sum(s.tables) + s.leaked, 0, size, maximum, TABLE_ELEMENTS_LIMIT)
      then if hostFails then s.(leaked := s.leaked + size) else s.(tables := s.tables + [size])
      else s
  }

  /** If the host cannot grow, every size stays as it was. A failed memory growth costs nothing, and a
      failed table growth, which the limiter does not hear of, costs what was allowed. */
  lemma FailedGrowth(s: Sizes, request: Request, limit: usize)
    ensures var s' := Next(s, request, limit);
            && (request.hostFails ==> s'.memories == s.memories && s'.tables == s.tables)
            && (!request.hostFails || request.GrowMemory? || request.NewMemory? ==> s'.leaked == s.leaked)
  {
  }

  function Served(limit: usize, requests: seq<Request>): Sizes {
    if requests == [] then Sizes([], [], 0)
    else Next(Served(limit, requests[..|requests| - 1]), requests[|requests| - 1], limit)
  }

  lemma SumAppend(sizes: seq<usize>, size: usize)
    ensures Sum(sizes + [size]) == Sum(sizes) + size
  {
    assert (sizes + [size])[..|sizes|] == sizes;
  }

  lemma SumNone()
    ensures Sum([]) == 0
  {
  }

  predicate Within(s: Sizes, limit: usize) {
    Sum(s.memories) <= limit && Sum(s.tables) + s.leaked <= 100_000
  }

  lemma NextWithin(s: Sizes, request: Request, limit: usize)
    requires Within(s, limit)
    ensures Within(Next(s, request, limit), limit)
  {
    var s' := Next(s, request, limit);
    if s' != s {
      match request {
        case GrowMemory(i, delta, _, _) => SumUpdate(s.memories, i, s.memories[i] + delta);
        case NewMemory(size, _, _) => SumAppend(s.memories, size);
        case GrowTable(i, delta, _, _) => SumUpdate(s.tables, i, s.tables[i] + delta);
        case NewTable(size, _, _) => SumAppend(s.tables, size);
      }
    }
  }

  /** No requests bring the memories beyond the limit, or the tables beyond theirs. */
  lemma {:induction false} BudgetKept(limit: usize, requests: seq<Request>)
    ensures Within(Served(limit, requests), limit)
  {
    if requests != [] {
      BudgetKept(limit, requests[..|requests| - 1]);
      NextWithin(Served(limit, requests[..|requests| - 1]), requests[|requests| - 1], limit);
    }
  }

  class Store {
    const limiter: PluginLimiter
    var memories: seq<usize>
    var tables: seq<usize>
    ghost var leaked: nat

    /** The limiter knows the memory exactly. It counts a table growth that failed as well. */
    ghost predicate Valid()
      reads this, limiter
    {
      && limiter.Valid()
      && limiter.memoryBytes == Sum(memories) <= limiter.memoryLimitBytes
      && limiter.tableElements == Sum(tables) + leaked
    }

    ghost function View(): Sizes
      reads this
    {
      Sizes(memories, tables, leaked)
    }

    constructor (limit: usize)
      ensures Valid() && fresh(limiter) && limiter.memoryLimitBytes == limit && View() == Sizes([], [], 0)
    {
      limiter := new PluginLimiter(limit);
      memories, tables, leaked := [], [], 0;
    }

    /** Asks for a memory of `desired` bytes in place of one of `current` bytes. A growth that the
        host then fails to carry out is reported back at once. */
    method Ask(current: usize, desired: usize, maximum: Option<usize>, hostFails: bool) returns (grown: bool)
      requires Valid() && limiter.memoryLimitBytes < USIZE_MAX && current <= Sum(memories) && current <= desired
      modifies limiter
      ensures limiter.Valid() && limiter.tableElements == old(limiter.tableElements)
      ensures grown <==> Fits(Sum(memories), current, desired, maximum, limiter.memoryLimitBytes) && !hostFails
      ensures limiter.memoryBytes == Sum(memories) + if grown then desired - current else 0
    {
      var answer := limiter.MemoryGrowing(current, desired, maximum);
      grown := answer == Granted && !hostFails;
      if answer == Granted && hostFails {
        limiter.MemoryGrowFailed();
      }
    }

    /** As Ask, for a table. The limiter is not told of a failed growth. */
    method AskTable(current: usize, desired: usize, maximum: Option<usize>, hostFails: bool) returns (grown: bool)
      requires Valid() && current <= Sum(tables) && current <= desired
      modifies this`leaked, limiter
      ensures limiter.Valid() && limiter.memoryBytes == old(limiter.memoryBytes)
      ensures var fits := Fits(Sum(tables) + old(leaked), current, desired, maximum, TABLE_ELEMENTS_LIMIT);
              && (grown <==> fits && !hostFails)
              && leaked == old(leaked) + (if fits && hostFails then desired - current else 0)
      ensures limiter.tableElements == Sum(tables) + leaked + if grown then desired - current else 0
    {
      var answer := limiter.TableGrowing(current, desired, maximum);
      grown := answer == Granted && !hostFails;
      if answer == Granted && hostFails {
        leaked := leaked + desired - current;
      }
    }

    /** A size beyond the address range does not reach the limiter. */
    method GrowMemory(i: nat, delta: usize, maximum: Option<usize>, hostFails: bool)
      requires Valid() && limiter.memoryLimitBytes < USIZE_MAX
      modifies this, limiter
      ensures Valid() && View() == Next(old(View()), Request.GrowMemory(i, delta, maximum, hostFails),
                                        limiter.memoryLimitBytes)
    {
      hide Sum;
      hide PluginLimiter.Valid;
      if i < |memories| && memories[i] + delta <= USIZE_MAX {
        SumUpdate(memories, i, memories[i] + delta);
        var grown := Ask(memories[i], memories[i] + delta, maximum, hostFails);
        if grown {
          memories := memories[i := memories[i] + delta];
        }
      }
    }

    method NewMemory(size: usize, maximum: Option<usize>, hostFails: bool)
      requires Valid() && limiter.memoryLimitBytes < USIZE_MAX
      modifies this, limiter
      ensures Valid() && View() == Next(old(View()), Request.NewMemory(size, maximum, hostFails),
                                        limiter.memoryLimitBytes)
    {
      hide Sum;
      hide PluginLimiter.Valid;
      SumAppend(memories, size);
      var grown := Ask(0, size, maximum, hostFails);
      if grown {
        memories := memories + [size];
      }
    }

    method GrowTable(i: nat, delta: usize, maximum: Option<usize>, hostFails: bool)
      requires Valid() && limiter.memoryLimitBytes < USIZE_MAX
      modifies this, limiter
      ensures Valid() && View() == Next(old(View()), Request.GrowTable(i, delta, maximum, hostFails),
                                        limiter.memoryLimitBytes)
    {
      hide Sum;
      hide PluginLimiter.Valid;
      if i < |tables| && tables[i] + delta <= USIZE_MAX {
        SumUpdate(tables, i, tables[i] + delta);
        var grown := AskTable(tables[i], tables[i] + delta, maximum, hostFails);
        if grown {
          tables := tables[i := tables[i] + delta];
        }
      }
    }

    method NewTable(size: usize, maximum: Option<usize>, hostFails: bool)
      requires Valid() && limiter.memoryLimitBytes < USIZE_MAX
      modifies this, limiter
      ensures Valid() && View() == Next(old(View()), Request.NewTable(size, maximum, hostFails),
                                        limiter.memoryLimitBytes)
    {
      hide Sum;
      hide PluginLimiter.Valid;
      hide Fits;
      SumAppend(tables, size);
      var grown := AskTable(0, size, maximum, hostFails);
      if grown {
        tables := tables + [size];
      }
    }

    method Serve(request: Request)
      requires Valid() && limiter.memoryLimitBytes < USIZE_MAX
      modifies this, limiter
      ensures Valid() && View() == Next(old(View()), request, limiter.memoryLimitBytes)
    {
      match request {
        case GrowMemory(i, delta, maximum, hostFails) => GrowMemory(i, delta, maximum, hostFails);
        case NewMemory(size, maximum, hostFails) => NewMemory(size, maximum, hostFails);
        case GrowTable(i, delta, maximum, hostFails) => GrowTable(i, delta, maximum, hostFails);
        case NewTable(size, maximum, hostFails) => NewTable(size, maximum, hostFails);
      }
    }
  }

  /** Any requests over any memories and tables get what the true sizes say, and the count of the
      limiter is the sum of the memories. */
  method ServeAll(limit: usize, requests: seq<Request>)
    returns (memories: seq<usize>, tables: seq<usize>, counted: usize)
    requires limit < USIZE_MAX
    ensures memories == Served(limit, requests).memories && tables == Served(limit, requests).tables
    ensures counted == Sum(memories)
  {
    var store := new Store(limit);
    assert requests[..0] == [];
    for i := 0 to |requests|
      invariant store.Valid() && store.limiter.memoryLimitBytes == limit
      invariant fresh(store) && fresh(store.limiter)
      invariant store.View() == Served(limit, requests[..i])
    {
      assert requests[..i + 1][..i] == requests[..i];
      store.Serve(requests[i]);
    }
    assert requests[..|requests|] == requests;
    return store.memories, store.tables, store.limiter.memoryBytes;
  }

  /** The bound on the limit is needed: with the largest limit, a saturated total hides the
      growth of a second memory. */
  method LargestLimitLosesCount() returns (counted: usize, memories: seq<usize>)
    ensures memories == [USIZE_MAX, 1] && counted == USIZE_MAX
    ensures Sum(memories) == counted + 1
  {
    SumNone();
    hide Sum;
    var limiter := new PluginLimiter(USIZE_MAX);
    memories := [];
    var answer := limiter.MemoryGrowing(0, USIZE_MAX, None);
    if answer == Granted {
      SumAppend(memories, USIZE_MAX);
      memories := memories + [USIZE_MAX];
    }
    answer := limiter.MemoryGrowing(0, 1, None);
    if answer == Granted {
      SumAppend(memories, 1);
      memories := memories + [1];
    }
    counted := limiter.memoryBytes;
  }
}
