/**
 The index of accepted containers: two database tables and a counter, written through an
 overlay that is committed atomically, so that a crash at any point leaves the tables of
 some prefix of the accepted containers.
 */
module Index {
  import opened Common

  type Bytes = seq<bv8>

  datatype Container = Container(id: ID, bytes: Bytes, timestamp: int)

  const NO_CONTAINER := Container(0, [], 0)

  /** One past the largest unsigned 64-bit integer. */
  const LIMIT: int := 0x1_0000_0000_0000_0000
  const MAX_FETCHED_BY_RANGE: nat := 1024

  function Wrap(x: int): nat {
    x % LIMIT
  }

  /** Conversion to a signed 64-bit integer. */
  function Signed(x: int): int {
    if Wrap(x) < LIMIT / 2 then Wrap(x) else Wrap(x) - LIMIT
  }

  /** What the database holds, or what an overlay would add to it. */
  datatype Tables = Tables(next: Option<nat>, containers: map<nat, Container>, indices: map<ID, nat>)

  const EMPTY := Tables(None, map[], map[])

  function Over(base: Tables, overlay: Tables): Tables {
    Tables(if overlay.next.Some? then overlay.next else base.next,
           base.containers + overlay.containers, base.indices + overlay.indices)
  }

  /** What one acceptance writes at an index. */
  function Entry(index: nat, c: Container): Tables {
    Tables(Some(Wrap(index + 1)), map[index := c], map[c.id := index])
  }

  /** The tables hold exactly this log: indices 0 to next - 1, and their exact inverse. */
  ghost predicate Represents(t: Tables, log: seq<Container>) {
    && |log| < LIMIT
    && t.next == (if log == [] then None else Some(|log|))
    && (forall i: nat :: i in t.containers <==> i < |log|)
    && (forall i :: 0 <= i < |log| ==> t.containers[i] == log[i])
    && (forall i :: 0 <= i < |log| ==> log[i].id in t.indices && t.indices[log[i].id] == i)
    && (forall id :: id in t.indices ==> t.indices[id] < |log| && log[t.indices[id]].id == id)
  }

  /** An empty database holds the empty log. */
  lemma NothingIndexed()
    ensures Represents(EMPTY, [])
  {
    var log: seq<Container> := [];
    assert EMPTY.next == None && EMPTY.containers == map[] && EMPTY.indices == map[];
    assert |log| == 0;
  }

  lemma LogDetermined(t: Tables, log: seq<Container>, other: seq<Container>)
    requires Represents(t, log) && Represents(t, other)
    ensures log == other
    ensures forall i, j :: 0 <= i < j < |log| ==> log[i].id != log[j].id
  {
    forall i | 0 <= i < |log| ensures log[i] == other[i] {
      assert t.containers[i] == log[i];
    }
    forall i, j | 0 <= i < j < |log| ensures log[i].id != log[j].id {
      assert t.indices[log[i].id] == i && t.indices[log[j].id] == j;
    }
  }

  /** One more container, unless the counter wraps to zero. */
  lemma Append(t: Tables, log: seq<Container>, c: Container)
    requires Represents(t, log) && c.id !in t.indices
    ensures Represents(Over(t, Entry(|log|, c)), log + [c]) <==> |log| + 1 < LIMIT
  {
    OverEntry(t, |log|, c);
    AppendContainers(t, log, c);
    AppendIndices(t, log, c);
    if |log| + 1 < LIMIT { assert Wrap(|log| + 1) == |log| + 1; }
    hide Wrap;
  }

  lemma AppendContainers(t: Tables, log: seq<Container>, c: Container)
    requires Represents(t, log)
    ensures var containers, log' := t.containers[|log| := c], log + [c];
            && (forall i: nat :: i in containers <==> i < |log'|)
            && (forall i :: 0 <= i < |log'| ==> containers[i] == log'[i])
  {
  }

  lemma OverEntry(t: Tables, index: nat, c: Container)
    ensures Over(t, Entry(index, c)) ==
            Tables(Some(Wrap(index + 1)), t.containers[index := c], t.indices[c.id := index])
  {
    hide Wrap;
  }

  lemma AppendIndices(t: Tables, log: seq<Container>, c: Container)
    requires Represents(t, log) && c.id !in t.indices
    ensures var indices, log' := t.indices[c.id := |log|], log + [c];
            && (forall i :: 0 <= i < |log'| ==> log'[i].id in indices && indices[log'[i].id] == i)
            && (forall id :: id in indices ==> indices[id] < |log'| && log'[indices[id]].id == id)
  {
    var indices, log' := t.indices[c.id := |log|], log + [c];
    forall i | 0 <= i < |log'| ensures log'[i].id in indices && indices[log'[i].id] == i {
      if i < |log| { assert log'[i] == log[i]; }
    }
  }

  /** Where a database call of an acceptance fails; a failing commit may still have been applied. */
  datatype Fault =
    | NoFault
    | ReadFails
    | MarshalFails
    | ContainerPutFails
    | IndexPutFails
    | NextPutFails
    | CommitFails(applied: bool)

  predicate Durable(fault: Fault) {
    fault.NoFault? || fault == CommitFails(true)
  }

  predicate Indexed(log: seq<Container>, id: ID) {
    exists i :: 0 <= i < |log| && log[i].id == id
  }

  /** The log after an acceptance that did not report an error, or that failed. */
  function Recorded(log: seq<Container>, c: Container, fault: Fault): seq<Container> {
    if !fault.ReadFails? && !Indexed(log, c.id) && Durable(fault) then log + [c] else log
  }

  predicate Fails(log: seq<Container>, id: ID, fault: Fault) {
    if fault.ReadFails? then true else !Indexed(log, id) && !fault.NoFault?
  }

  datatype LookupError = NoneAccepted | NoContainerAtIndex | NumToFetchInvalid | NotFound | StartTooLarge

  datatype Lookup<+T> = Found(value: T) | Missing(error: LookupError)

  class Index {
    var base: Tables
    var overlay: Tables
    var nextAcceptedIndex: nat
    ghost var log: seq<Container>
    ghost var failed: bool

    /** The database always holds a log; a running index agrees with it. */
    ghost predicate Valid()
      reads this
    {
      && Represents(base, log)
      && (!failed ==> overlay == EMPTY && nextAcceptedIndex == |log|)
    }

    /** Opening the database of an earlier run, or an empty one, recovers its log. */
    constructor (db: Tables, ghost stored: seq<Container>)
      requires Represents(db, stored)
      ensures Valid() && !failed && log == stored && base == db
    {
      base, overlay := db, EMPTY;
      nextAcceptedIndex := if db.next.Some? then db.next.value else 0;
      log, failed := stored, false;
    }

    /** An acceptance appends a new container; one that fails leaves the old or the new log behind. */
    method Accept(id: ID, bytes: Bytes, now: int, fault: Fault) returns (err: bool)
      requires Valid() && !failed
      modifies this
      ensures err == failed == Fails(old(log), id, fault)
      ensures log == Recorded(old(log), Container(id, bytes, now), fault)
      ensures !err <==> fault.NoFault? || (!fault.ReadFails? && exists i :: 0 <= i < |old(log)| && old(log)[i].id == id)
      ensures !err && (forall i :: 0 <= i < |old(log)| ==> old(log)[i].id != id) ==>
                log == old(log) + [Container(id, bytes, now)]
      ensures log == old(log) || log == old(log) + [Container(id, bytes, now)]
      ensures Indexed(old(log), id) ==> base == old(base)
      ensures Valid() <==> log == old(log) || |old(log)| + 1 < LIMIT
    {
      hide Represents;
      IndexedMeans(base, log, id);
      var c := Container(id, bytes, now);
      err := true;
      if fault.ReadFails? { failed := true; return; }
      if id in Over(base, overlay).indices { return false; }
      Append(base, log, c);
      err := Store(c, fault);
    }

    /** The writes of an acceptance, up to the one that fails. */
    method Store(c: Container, fault: Fault) returns (err: bool)
      requires overlay == EMPTY && !fault.ReadFails? && nextAcceptedIndex == |log| && !failed
      modifies this
      ensures err == failed == !fault.NoFault?
      ensures log == if Durable(fault) then old(log) + [c] else old(log)
      ensures base == if Durable(fault) then Over(old(base), Entry(old(|log|), c)) else old(base)
      ensures !err ==> overlay == EMPTY && nextAcceptedIndex == Wrap(old(|log|) + 1)
    {
      err := true;
      failed := true;
      if fault.MarshalFails? { return; }
      var index := nextAcceptedIndex;
      if fault.ContainerPutFails? { return; }
      overlay := overlay.(containers := overlay.containers[index := c]);
      if fault.IndexPutFails? { return; }
      overlay := overlay.(indices := overlay.indices[c.id := index]);
      nextAcceptedIndex := Wrap(nextAcceptedIndex + 1);
      if fault.NextPutFails? { return; }
      overlay := overlay.(next := Some(nextAcceptedIndex));
      if fault.CommitFails? && !fault.applied { return; }
      base := Over(base, overlay);
      log := log + [c];
      if fault.CommitFails? { return; }
      overlay := EMPTY;
      err, failed := false, false;
    }

    /** Whether anything was accepted, and the index of the latest. */
    function LastAcceptedIndex(): (r: (nat, bool))
      requires Valid() && !failed
      reads this
      ensures r.1 <==> log != []
      ensures r.1 ==> r.0 == |log| - 1
    {
      (Wrap(nextAcceptedIndex - 1), nextAcceptedIndex != 0)
    }

    method GetContainerByIndex(index: nat) returns (r: Lookup<Container>)
      requires Valid() && !failed
      ensures r == if index < |log| then Found(log[index]) else Missing(NoContainerAtIndex)
    {
      var (last, ok) := LastAcceptedIndex();
      if !ok || index > last { return Missing(NoContainerAtIndex); }
      return Found(Over(base, overlay).containers[index]);
    }

    method GetIndex(id: ID) returns (r: Lookup<nat>)
      requires Valid() && !failed
      ensures r.Missing? ==> r.error == NotFound && !Indexed(log, id)
      ensures r.Found? ==> r.value < |log| && log[r.value].id == id
    {
      IndexedMeans(base, log, id);
      var tables := Over(base, overlay);
      if id !in tables.indices { return Missing(NotFound); }
      return Found(tables.indices[id]);
    }

    method GetContainerByID(id: ID) returns (r: Lookup<Container>)
      requires Valid() && !failed
      ensures r.Missing? ==> r.error == NotFound && !Indexed(log, id)
      ensures r.Found? ==> r.value in log && r.value.id == id
    {
      IndexedMeans(base, log, id);
      var tables := Over(base, overlay);
      if id !in tables.indices { return Missing(NotFound); }
      return Found(tables.containers[tables.indices[id]]);
    }

    method GetLastAccepted() returns (r: Lookup<Container>)
      requires Valid() && !failed
      ensures r == if log == [] then Missing(NoneAccepted) else Found(log[|log| - 1])
    {
      var (last, exists_) := LastAcceptedIndex();
      if !exists_ { return Missing(NoneAccepted); }
      r := GetContainerByIndex(last);
    }

    /**
     The requested slice, clipped at the last index. When the end of the request does not fit in
     64 bits the sum wraps, the loop does not run and blank containers come back.
     */
    method GetContainerRange(start: nat, num: nat) returns (r: Lookup<seq<Container>>)
      requires Valid() && !failed && start < LIMIT && num < LIMIT
      ensures r.Missing? <==> num == 0 || num > MAX_FETCHED_BY_RANGE || start >= |log|
      ensures r.Missing? ==> r.error == if num == 0 || num > MAX_FETCHED_BY_RANGE then NumToFetchInvalid
                                        else if log == [] then NoneAccepted else StartTooLarge
      ensures r.Found? ==> (r.value == Clipped(log, start, num) <==> start + num <= LIMIT)
      ensures r.Found? && start + num <= LIMIT ==>
                && |r.value| == (if num < |log| - start then num else |log| - start)
                && forall k :: 0 <= k < |r.value| ==> r.value[k] == log[start + k]
      ensures r.Found? && start + num > LIMIT ==> r.value == seq(num, _ => NO_CONTAINER)
    {
      LogFits(base, log);
      hide Wrap, Signed, Represents;
      if num == 0 || num > MAX_FETCHED_BY_RANGE { return Missing(NumToFetchInvalid); }
      var (lastAccepted, ok) := LastAcceptedIndex();
      if !ok { return Missing(NoneAccepted); }
      if start > lastAccepted { return Missing(StartTooLarge); }
      var end := Wrap(start + num - 1);
      var last := if end < lastAccepted then end else lastAccepted;
      var size := Signed(Signed(Signed(last) - Signed(start)) + 1);
      RangeSize(start, num, |log|);
      var found := Fetch(start, last, size);
      return Found(found);
    }

    method Fetch(start: nat, last: nat, size: nat) returns (containers: seq<Container>)
      requires Valid() && !failed && start < |log| && last < |log|
      requires start <= last ==> size == last + 1 - start
      ensures containers == if start <= last then log[start..last + 1] else seq(size, _ => NO_CONTAINER)
    {
      containers := seq(size, _ => NO_CONTAINER);
      var n, j := 0, start;
      while j <= last
        invariant start <= j && n == j - start && |containers| == size
        invariant start <= last ==> j <= last + 1 && containers[..n] == log[start..j]
        invariant start > last ==> j == start && containers == seq(size, _ => NO_CONTAINER)
      {
        var c := GetContainerByIndex(j);
        containers := containers[n := c.value];
        n, j := n + 1, Wrap(j + 1);
      }
    }
  }

  lemma LogFits(t: Tables, log: seq<Container>)
    requires Represents(t, log)
    ensures |log| < LIMIT
  {
  }

  function Clipped(log: seq<Container>, start: nat, num: nat): seq<Container>
    requires start < |log|
  {
    log[start..if start + num < |log| then start + num else |log|]
  }

  lemma WrapMeans(x: int)
    ensures 0 <= x < LIMIT ==> Wrap(x) == x
    ensures LIMIT <= x < 2 * LIMIT ==> Wrap(x) == x - LIMIT
    ensures -LIMIT <= x < 0 ==> Wrap(x) == x + LIMIT
  {
  }

  /** Signed subtraction of unsigned numbers is their difference when that is small. */
  lemma SignedDifference(a: nat, b: nat, d: nat)
    requires a < LIMIT && b < LIMIT && d < LIMIT / 2 && (d == a - b || d == a - b + LIMIT)
    ensures Signed(Signed(a) - Signed(b)) == d
  {
    WrapMeans(a);
    WrapMeans(b);
    WrapMeans(Signed(a) - Signed(b));
  }

  /** The signed size of the result: the slice's length, or the full request when the end wraps. */
  lemma RangeSize(start: nat, num: nat, count: nat)
    requires 0 < num <= MAX_FETCHED_BY_RANGE && start < count < LIMIT
    ensures var end := Wrap(start + num - 1);
            var last := if end < count - 1 then end else count - 1;
            && Signed(Signed(Signed(last) - Signed(start)) + 1) ==
               (if start + num <= LIMIT then last + 1 - start else num)
            && (start <= last <==> start + num <= LIMIT)
            && (start + num <= LIMIT ==> last + 1 == if start + num < count then start + num else count)
  {
    WrapMeans(start + num - 1);
    var end := Wrap(start + num - 1);
    var last := if end < count - 1 then end else count - 1;
    SignedDifference(last, start, if start + num <= LIMIT then last - start else num - 1);
    WrapMeans(Signed(Signed(last) - Signed(start)) + 1);
  }

  lemma IndexedMeans(t: Tables, log: seq<Container>, id: ID)
    requires Represents(t, log)
    ensures id in t.indices <==> Indexed(log, id)
    ensures Over(t, EMPTY) == t
  {
    if id in t.indices { assert log[t.indices[id]].id == id; }
  }

  // ---- The index beside a VM that accepts a chain of containers ----

  /** The decided containers; a VM accepts them in this order and redoes what a crash undid. */
  datatype Item = Item(id: ID, bytes: Bytes)

  /** What the VM has committed, and whether the index let it commit the next. */
  datatype Node = Node(log: seq<Container>, committed: nat, cleared: bool, failed: bool)

  datatype Event = AcceptNext(now: int, fault: Fault) | Commit | Restart

  function Next(n: Node, chain: seq<Item>, e: Event): Node {
    match e
    case AcceptNext(now, fault) =>
      if n.failed || n.committed >= |chain| then n else
      var c := Container(chain[n.committed].id, chain[n.committed].bytes, now);
      var err := Fails(n.log, c.id, fault);
      n.(log := Recorded(n.log, c, fault), cleared := !err, failed := err)
    case Commit =>
      if n.cleared then n.(committed := n.committed + 1, cleared := false) else n
    case Restart =>
      n.(cleared := false, failed := false)
  }

  function Run(chain: seq<Item>, events: seq<Event>): Node {
    if events == [] then Node([], 0, false, false)
    else Next(Run(chain, events[..|events| - 1]), chain, events[|events| - 1])
  }

  ghost predicate Follows(log: seq<Container>, chain: seq<Item>) {
    && |log| <= |chain|
    && forall i :: 0 <= i < |log| ==> log[i].id == chain[i].id && log[i].bytes == chain[i].bytes
  }

  ghost predicate DistinctItems(chain: seq<Item>) {
    forall i, j :: 0 <= i < j < |chain| ==> chain[i].id != chain[j].id
  }

  ghost predicate InStep(n: Node, chain: seq<Item>) {
    && Follows(n.log, chain)
    && n.committed <= |n.log| <= n.committed + 1
    && (n.cleared ==> |n.log| == n.committed + 1 && !n.failed)
  }

  /**
   Whatever fails and whenever the node restarts, the log is the chain in its own order: it misses
   nothing the VM committed and is at most one container ahead.
   */
  lemma {:induction false} IndexFollowsChain(chain: seq<Item>, events: seq<Event>)
    requires DistinctItems(chain)
    ensures InStep(Run(chain, events), chain)
  {
    if events != [] {
      var before, e := events[..|events| - 1], events[|events| - 1];
      IndexFollowsChain(chain, before);
      StepFollows(Run(chain, before), chain, e);
    }
  }

  lemma StepFollows(n: Node, chain: seq<Item>, e: Event)
    requires DistinctItems(chain) && InStep(n, chain)
    ensures InStep(Next(n, chain, e), chain)
  {
    if e.AcceptNext? && !n.failed && n.committed < |chain| {
      var id := chain[n.committed].id;
      if |n.log| == n.committed + 1 {
        assert n.log[n.committed].id == id;
      }
    }
  }

  /** The same runs on real tables: an index is opened, fails, and is opened again on what survived. */
  method Replay(chain: seq<Item>, events: seq<Event>) returns (index: Index)
    requires DistinctItems(chain) && |chain| < LIMIT
    ensures index.Valid() && Represents(index.base, Run(chain, events).log)
    ensures Follows(index.log, chain) && index.log == Run(chain, events).log
  {
    NothingIndexed();
    index := new Index(EMPTY, []);
    var committed, cleared, failed := 0, false, false;
    for i := 0 to |events|
      invariant fresh(index) && index.Valid()
      invariant Node(index.log, committed, cleared, failed) == Run(chain, events[..i]) && index.failed == failed
    {
      assert events[..i + 1][..i] == events[..i];
      IndexFollowsChain(chain, events[..i]);
      match events[i]
      case AcceptNext(now, fault) =>
        if !failed && committed < |chain| {
          IndexFollowsChain(chain, events[..i + 1]);
          failed := index.Accept(chain[committed].id, chain[committed].bytes, now, fault);
          cleared := !failed;
        }
      case Commit =>
        if cleared { committed, cleared := committed + 1, false; }
      case Restart =>
        index := new Index(index.base, index.log);
        cleared, failed := false, false;
    }
    assert events[..|events|] == events;
    IndexFollowsChain(chain, events);
  }
}
