/**
 The table from thread id to implicit producer, as a transition system.

 Any number of threads call `get_or_add_implicit_producer`; each step performs one access to
 shared memory. Tables form a chain through `prev`, each at least twice as large as the one
 before; a thread probes linearly from its hash, adds itself with a compare-and-swap, and copies
 its entry to the newest table when it finds it in an older one. Threads do not exit, so keys
 are never taken out again.
 */
module ProducerHash {

  import opened Base
  import opened ModularCounters

  type Thread = nat
  type Producer = nat

  /** `key[i]` and `value[i]` are the two fields of entry i; an empty key is None. */
  datatype Table = Table(key: seq<Option<Thread>>, value: seq<Option<Producer>>, prev: Option<nat>)
  {
    function Capacity(): nat { |key| }
  }

  datatype Pc =
    | Done(result: Option<Producer>)                    // outside; the last call returned `result`
    | LoadMain
    | Probe(main: nat, tab: nat, n: nat)                // search: n slots of `tab` probed so far
    | ReadValue(main: nat, tab: nat, n: nat)
    | SlotLoad(main: nat, n: nat, value: Option<Producer>)      // insertion into `main`, new or migrated
    | SlotCas(main: nat, n: nat, value: Option<Producer>)
    | SlotStore(main: nat, n: nat, value: Option<Producer>)
    | FetchAdd(main: nat)
    | TryLock(main: nat, newCount: nat)
    | LockedLoad(newCount: nat)
    | Allocate(main: nat, newCount: nat)
    | Unlock(main: nat, newCount: nat)
    | AllocFailed
    | UnlockFailed
    | Create(main: nat, newCount: nat)
    | CreateFailed
    | Reload(newCount: nat)

  /**
   `count` is implicitProducerHashCount and `locked` the resize flag; `made` counts the producers
   created so far. `hash` holds each thread's hashed id. `ticket` and `own` are history: the value
   of newCount under which a thread is counted (0 when it is not), and the producer made for it.
   No step reads them.
   */
  datatype State = State(
    tables: seq<Table>, main: nat, count: nat, locked: bool, made: nat,
    hash: seq<nat>, pc: seq<Pc>, ticket: seq<nat>, own: seq<Option<Producer>>)

  /** `succeeds` says whether the allocation a step may attempt succeeds. */
  datatype Action = Call(thread: Thread) | Continue(thread: Thread, succeeds: bool)

  /** The slot of the n-th probe: index & (capacity - 1), with index advanced n times. */
  function Slot(hash: nat, n: nat, capacity: nat): nat
    requires capacity > 0
  {
    And(hash + n, capacity - 1)
  }

  /** Three quarters of the capacity, as the source computes it. */
  function Limit(capacity: nat): nat
  {
    capacity / 2 + capacity / 4
  }

  function EmptyTable(capacity: nat, prev: Option<nat>): Table
  {
    Table(seq(capacity, _ => None), seq(capacity, _ => None), prev)
  }

  /** The doubling loop: the smallest capacity, from a start, whose half exceeds the count. */
  function Grow(capacity: nat, newCount: nat): (r: nat)
    requires capacity > 0
    decreases 2 * newCount + 2 - capacity
  {
    if newCount >= capacity / 2 then Grow(2 * capacity, newCount) else capacity
  }

  /** After the resize block: insert if the table is less than three-quarters full, else wait. */
  function Decide(tables: seq<Table>, main: nat, newCount: nat): (p: Pc)
    requires main < |tables|
    ensures p.Create? || p.Reload?
  {
    if newCount < Limit(tables[main].Capacity()) then Create(main, newCount) else Reload(newCount)
  }

  /** The head of the insertion loop. */
  function LoopHead(tables: seq<Table>, main: nat, newCount: nat): (p: Pc)
    requires main < |tables|
    ensures p.TryLock? || p.Create? || p.Reload?
  {
    if newCount >= tables[main].Capacity() / 2 then TryLock(main, newCount) else Decide(tables, main, newCount)
  }

  predicate Enabled(s: State, a: Action)
  {
    && a.thread < |s.pc|
    && |s.hash| == |s.ticket| == |s.own| == |s.pc|
    && s.main < |s.tables|
    && match a
       case Call(t) => s.pc[t].Done?
       case Continue(t, _) => PcEnabled(s, s.pc[t], s.hash[t])
  }

  /** The thread is inside a call and the memory it is about to access exists. */
  predicate PcEnabled(s: State, p: Pc, h: nat)
  {
    && !p.Done?
    && (p.FetchAdd? || p.TryLock? || p.Allocate? || p.Unlock? || p.Create? ==> p.main < |s.tables|)
    && (p.AllocFailed? || p.CreateFailed? ==> s.count > 0)
    && (p.Allocate? ==> s.tables[p.main].Capacity() > 0)
    && (p.Probe? || p.ReadValue? ==> p.tab < |s.tables| && SlotExists(s.tables[p.tab], h, p.n))
    && (p.SlotLoad? || p.SlotCas? || p.SlotStore? ==> p.main < |s.tables| && SlotExists(s.tables[p.main], h, p.n))
  }

  predicate SlotExists(tab: Table, h: nat, n: nat)
  {
    0 < |tab.key| == |tab.value| && Slot(h, n, |tab.key|) < |tab.key|
  }

  /** What a step leaves behind: the shared memory, and the acting thread's part of the rest. */
  datatype Effect = Effect(
    pc: Pc, tables: seq<Table>, main: nat, count: nat, locked: bool, made: nat, ticket: nat, own: Option<Producer>)

  function Jump(s: State, t: Thread, p: Pc): Effect
    requires t < |s.ticket| == |s.own|
  {
    Effect(p, s.tables, s.main, s.count, s.locked, s.made, s.ticket[t], s.own[t])
  }

  /** One step of a thread inside a call. */
  function Step(s: State, t: Thread, succeeds: bool): Effect
    requires Enabled(s, Continue(t, succeeds))
  {
    var h, id := s.hash[t], Some(t);
    match s.pc[t]
    case LoadMain => Jump(s, t, Probe(s.main, s.main, 0))
    case Probe(main, k, n) =>
      var tab := s.tables[k];
      var probed := tab.key[Slot(h, n, tab.Capacity())];
      Jump(s, t,
           if probed == id then ReadValue(main, k, n)
           else if probed != None then Probe(main, k, n + 1)
           else if tab.prev != None then Probe(main, tab.prev.value, 0)
           else FetchAdd(main))
    case ReadValue(main, k, n) =>
      var tab := s.tables[k];
      var value := tab.value[Slot(h, n, tab.Capacity())];
      Jump(s, t, if k != main then SlotLoad(main, 0, value) else Done(value))
    case SlotLoad(main, n, value) =>
      var tab := s.tables[main];
      var probed := tab.key[Slot(h, n, tab.Capacity())];
      Jump(s, t, if probed == None then SlotCas(main, n, value) else SlotLoad(main, n + 1, value))
    case SlotCas(main, n, value) =>
      var tab := s.tables[main];
      var i := Slot(h, n, tab.Capacity());
      if tab.key[i] == None then
        Jump(s, t, SlotStore(main, n, value)).(tables := s.tables[main := tab.(key := tab.key[i := id])])
      else
        Jump(s, t, SlotLoad(main, n + 1, value))
    case SlotStore(main, n, value) =>
      var tab := s.tables[main];
      var i := Slot(h, n, tab.Capacity());
      Jump(s, t, Done(value)).(tables := s.tables[main := tab.(value := tab.value[i := value])])
    case FetchAdd(main) =>
      var newCount := s.count + 1;
      Jump(s, t, LoopHead(s.tables, main, newCount)).(count := newCount, ticket := newCount)
    case TryLock(main, newCount) =>
      if s.locked then Jump(s, t, Decide(s.tables, main, newCount))
      else Jump(s, t, LockedLoad(newCount)).(locked := true)
    case LockedLoad(newCount) =>
      Jump(s, t, if newCount >= s.tables[s.main].Capacity() / 2 then Allocate(s.main, newCount)
          else Unlock(s.main, newCount))
    case Allocate(main, newCount) =>
      if succeeds then
        var table := EmptyTable(Grow(2 * s.tables[main].Capacity(), newCount), Some(main));
        Jump(s, t, Unlock(|s.tables|, newCount)).(tables := s.tables + [table], main := |s.tables|)
      else
        Jump(s, t, AllocFailed)
    case AllocFailed => Jump(s, t, UnlockFailed).(count := s.count - 1, ticket := 0)
    case UnlockFailed => Jump(s, t, Done(None)).(locked := false)
    case Unlock(main, newCount) => Jump(s, t, Decide(s.tables, main, newCount)).(locked := false)
    case Create(main, newCount) =>
      if succeeds then
        Jump(s, t, SlotLoad(main, 0, Some(s.made))).(made := s.made + 1, own := Some(s.made))
      else
        Jump(s, t, CreateFailed)
    case CreateFailed => Jump(s, t, Done(None)).(count := s.count - 1, ticket := 0)
    case Reload(newCount) => Jump(s, t, LoopHead(s.tables, s.main, newCount))
  }

  function EffectOf(s: State, a: Action): Effect
    requires Enabled(s, a)
  {
    match a
    case Call(t) => Jump(s, t, LoadMain)
    case Continue(t, succeeds) => Step(s, t, succeeds)
  }

  function Next(s: State, a: Action): State
    requires Enabled(s, a)
  {
    var e, t := EffectOf(s, a), a.thread;
    State(e.tables, e.main, e.count, e.locked, e.made, s.hash, s.pc[t := e.pc], s.ticket[t := e.ticket],
        s.own[t := e.own])
  }

  // ---------------------------------------------------------------------
  // Probe sequences
  // ---------------------------------------------------------------------

  ghost predicate IsPow2(c: nat)
  {
    exists b: nat :: c == Pow2(b)
  }

  /** The number of steps from a thread's first slot to slot i. */
  function Dist(hash: nat, i: nat, capacity: nat): nat
    requires capacity > 0
  {
    (i - hash) % capacity
  }

  lemma SlotIs(hash: nat, n: nat, capacity: nat)
    requires IsPow2(capacity)
    ensures capacity > 0 && Slot(hash, n, capacity) == (hash + n) % capacity < capacity
  {
    var b: nat :| capacity == Pow2(b);
    LowMaskIsRemainder(hash + n, b);
  }

  lemma SlotNext(hash: nat, n: nat, capacity: nat)
    requires IsPow2(capacity)
    ensures capacity > 0 && Slot(Slot(hash, n, capacity), 1, capacity) == Slot(hash, n + 1, capacity)
  {
    hide Slot, IsPow2;
    SlotIs(hash, n, capacity);
    SlotIs(hash, n + 1, capacity);
    SlotIs(Slot(hash, n, capacity), 1, capacity);
    RemainderAdvances(hash + n, capacity);
  }

  /** Masking the index after each increment visits the same slots as masking once. */
  lemma ProbeAdvances(hash: nat, n: nat, capacity: nat)
    requires IsPow2(capacity)
    ensures And(Slot(hash, n, capacity) + 1, capacity - 1) == Slot(hash, n + 1, capacity)
  {
    hide And;
    SlotNext(hash, n, capacity);
    assert Slot(Slot(hash, n, capacity), 1, capacity) == And(Slot(hash, n, capacity) + 1, capacity - 1);
  }

  lemma RemainderAdvances(x: int, m: int)
    requires m > 0
    ensures (x % m + 1) % m == (x + 1) % m
  {
    Decompose(x, m);
    ModShift(x % m + 1, x / m, m);
  }

  /** Every slot is met exactly once in the first `capacity` probes. */
  lemma SlotOfDist(hash: nat, i: nat, capacity: nat)
    requires IsPow2(capacity) && i < capacity
    ensures capacity > 0 && Dist(hash, i, capacity) < capacity
    ensures Slot(hash, Dist(hash, i, capacity), capacity) == i
  {
    var d := Dist(hash, i, capacity);
    SlotIs(hash, d, capacity);
    Decompose(i - hash, capacity);
    MulNeg((i - hash) / capacity, capacity);
    ModUnique(hash + d, capacity, -((i - hash) / capacity), i);
  }

  lemma MulNeg(a: int, m: int)
    ensures (-a) * m == -(a * m)
  {
  }

  lemma DistOfSlot(hash: nat, n: nat, capacity: nat)
    requires IsPow2(capacity) && n < capacity
    ensures capacity > 0 && Dist(hash, Slot(hash, n, capacity), capacity) == n
  {
    SlotIs(hash, n, capacity);
    Decompose(hash + n, capacity);
    var q := (hash + n) / capacity;
    MulNeg(q, capacity);
    ModUnique((hash + n) % capacity - hash, capacity, -q, n);
  }

  /** The slots of the first n probes are all taken. */
  ghost predicate Filled(tab: Table, hash: nat, n: nat)
  {
    forall j :: 0 <= j < n ==> SlotTaken(tab, hash, j)
  }

  predicate SlotTaken(tab: Table, hash: nat, j: nat)
  {
    0 < |tab.key| && var i := Slot(hash, j, |tab.key|); i < |tab.key| && tab.key[i] != None
  }

  /** None of the first n probes meets thread t. */
  ghost predicate Missed(tab: Table, hash: nat, n: nat, t: Thread)
  {
    forall j :: 0 <= j < n ==> !SlotHolds(tab, hash, j, t)
  }

  predicate SlotHolds(tab: Table, hash: nat, j: nat, t: Thread)
  {
    0 < |tab.key| && var i := Slot(hash, j, |tab.key|); i < |tab.key| && tab.key[i] == Some(t)
  }

  predicate In(tab: Table, t: Thread)
  {
    Some(t) in tab.key
  }

  /** Thread t is in no table from `low` on. */
  ghost predicate Absent(tables: seq<Table>, t: Thread, low: nat)
  {
    forall k :: low <= k < |tables| ==> !In(tables[k], t)
  }

  // ---------------------------------------------------------------------
  // The invariant
  // ---------------------------------------------------------------------

  ghost predicate TableShaped(tables: seq<Table>, k: nat)
    requires k < |tables|
  {
    && IsPow2(|tables[k].key|) && |tables[k].value| == |tables[k].key|
    && tables[k].prev == if k == 0 then None else Some(k - 1)
  }

  /** The chain of tables: the newest is last, and capacities never shrink along it. */
  ghost predicate ChainOk(s: State)
  {
    && 0 < |s.tables| && s.main == |s.tables| - 1
    && (forall k :: 0 <= k < |s.tables| ==> TableShaped(s.tables, k))
    && (forall j, k :: 0 <= j <= k < |s.tables| ==> |s.tables[j].key| <= |s.tables[k].key|)
  }

  /** The threads whose ticket is in 1..m. */
  function Counted(ticket: seq<nat>, m: nat): set<Thread>
  {
    set t | 0 <= t < |ticket| && 0 < ticket[t] <= m
  }

  function AllCounted(ticket: seq<nat>): set<Thread>
  {
    set t | 0 <= t < |ticket| && 0 < ticket[t]
  }

  /** The counter counts the threads with a ticket, and at most m of them have a ticket up to m. */
  ghost predicate CountOk(s: State)
  {
    && s.count == |AllCounted(s.ticket)|
    && forall m: nat :: |Counted(s.ticket, m)| <= m
  }

  predicate Storing(p: Pc, hash: nat, k: nat, i: nat, capacity: nat)
    requires capacity > 0
  {
    p.SlotStore? && p.main == k && Slot(hash, p.n, capacity) == i
  }

  /**
   A taken slot: its thread was counted early enough for this table, every probe before it is taken,
   and its value is that thread's producer, unless the thread is just about to store it.
   */
  ghost predicate SlotOk(s: State, k: nat, i: nat, t: Thread)
    requires k < |s.tables| && i < |s.tables[k].key| == |s.tables[k].value|
    requires t < |s.pc| == |s.hash| == |s.ticket| == |s.own|
  {
    var tab := s.tables[k];
    && 0 < s.ticket[t] < Limit(|tab.key|)
    && Filled(tab, s.hash[t], Dist(s.hash[t], i, |tab.key|))
    && s.own[t] != None
    && (tab.value[i] == s.own[t] || Storing(s.pc[t], s.hash[t], k, i, |tab.key|))
  }

  ghost predicate Sized(s: State)
  {
    && |s.hash| == |s.ticket| == |s.own| == |s.pc|
    && forall k :: 0 <= k < |s.tables| ==> |s.tables[k].value| == |s.tables[k].key|
  }

  ghost predicate SlotsOk(s: State)
    requires Sized(s)
  {
    && (forall k, i :: 0 <= k < |s.tables| && 0 <= i < |s.tables[k].key| && s.tables[k].key[i] != None ==>
          s.tables[k].key[i].value < |s.pc| && SlotOk(s, k, i, s.tables[k].key[i].value))
    && (forall k :: 0 <= k < |s.tables| ==> Distinct(s.tables[k].key))
  }

  ghost predicate Distinct(key: seq<Option<Thread>>)
  {
    forall i, j :: 0 <= i < j < |key| && key[i] != None ==> key[i] != key[j]
  }

  predicate Holding(p: Pc)
  {
    p.LockedLoad? || p.Allocate? || p.Unlock? || p.AllocFailed? || p.UnlockFailed?
  }

  ghost predicate LockOk(s: State)
  {
    && (forall t :: 0 <= t < |s.pc| && Holding(s.pc[t]) ==> s.locked)
    && (forall t, u :: 0 <= t < |s.pc| && 0 <= u < |s.pc| && Holding(s.pc[t]) && Holding(s.pc[u]) ==> t == u)
    && (forall t :: 0 <= t < |s.pc| && s.pc[t].Allocate? ==> s.pc[t].main == s.main)
  }

  ghost predicate OwnOk(s: State)
  {
    && (forall t :: 0 <= t < |s.own| && s.own[t] != None ==> s.own[t].value < s.made)
    && (forall t, u :: 0 <= t < u < |s.own| && s.own[t] != None ==> s.own[t] != s.own[u])
  }

  /** A thread between calls, or searching: either wholly unknown or registered somewhere. */
  ghost predicate Settled(tables: seq<Table>, t: Thread, ticket: nat, own: Option<Producer>)
  {
    if own == None then ticket == 0 && Absent(tables, t, 0) else ticket > 0 && !Absent(tables, t, 0)
  }

  ghost predicate PcOk(tables: seq<Table>, t: Thread, p: Pc, h: nat, ticket: nat, own: Option<Producer>)
  {
    match p
    case Done(result) => Settled(tables, t, ticket, own) && result == own
    case LoadMain => Settled(tables, t, ticket, own)
    case Probe(main, k, n) =>
      && Settled(tables, t, ticket, own)
      && k <= main < |tables| && Absent(tables, t, k + 1)
      && Filled(tables[k], h, n) && Missed(tables[k], h, n, t)
    case ReadValue(main, k, n) =>
      && Settled(tables, t, ticket, own)
      && k <= main < |tables| && Absent(tables, t, k + 1)
      && SlotHolds(tables[k], h, n, t)
    case SlotLoad(main, n, value) => Inserting(tables, t, main, h, n, ticket, own) && value == own
    case SlotCas(main, n, value) => Inserting(tables, t, main, h, n, ticket, own) && value == own
    case SlotStore(main, n, value) =>
      && main < |tables| && value == own && own != None && ticket > 0
      && SlotHolds(tables[main], h, n, t) && Absent(tables, t, main + 1)
    case FetchAdd(main) => main < |tables| && ticket == 0 && own == None && Absent(tables, t, 0)
    case UnlockFailed => ticket == 0 && own == None && Absent(tables, t, 0)
    case LockedLoad(newCount) => ticket == newCount && Waiting(tables, t, 0, ticket, own)
    case Reload(newCount) => ticket == newCount && Waiting(tables, t, 0, ticket, own)
    case AllocFailed => Waiting(tables, t, 0, ticket, own)
    case CreateFailed => Waiting(tables, t, 0, ticket, own)
    case Create(main, newCount) =>
      ticket == newCount && Waiting(tables, t, main, ticket, own) && newCount < Limit(|tables[main].key|)
    case TryLock(main, newCount) => ticket == newCount && Waiting(tables, t, main, ticket, own)
    case Allocate(main, newCount) => ticket == newCount && Waiting(tables, t, main, ticket, own)
    case Unlock(main, newCount) => ticket == newCount && Waiting(tables, t, main, ticket, own)
  }

  ghost predicate Waiting(tables: seq<Table>, t: Thread, main: nat, ticket: nat, own: Option<Producer>)
  {
    main < |tables| && ticket > 0 && own == None && Absent(tables, t, 0)
  }

  ghost predicate Inserting(tables: seq<Table>, t: Thread, main: nat, h: nat, n: nat, ticket: nat,
          own: Option<Producer>)
  {
    && main < |tables| && own != None && 0 < ticket < Limit(|tables[main].key|)
    && Absent(tables, t, main) && Filled(tables[main], h, n)
  }

  ghost predicate PcsOk(s: State)
    requires Sized(s)
  {
    forall t :: 0 <= t < |s.pc| ==> PcOk(s.tables, t, s.pc[t], s.hash[t], s.ticket[t], s.own[t])
  }

  ghost predicate Inv(s: State)
  {
    && Sized(s)
    && ChainOk(s)
    && CountOk(s)
    && SlotsOk(s)
    && LockOk(s)
    && OwnOk(s)
    && PcsOk(s)
  }

  // ---------------------------------------------------------------------
  // A free slot, and what a search may conclude
  // ---------------------------------------------------------------------

  lemma {:induction false} DistinctBound(ts: seq<Thread>, all: set<Thread>)
    requires forall i, j :: 0 <= i < j < |ts| ==> ts[i] != ts[j]
    requires forall i :: 0 <= i < |ts| ==> ts[i] in all
    ensures |ts| <= |all|
  {
    if |ts| > 0 {
      DistinctBound(ts[1..], all - {ts[0]});
    }
  }

  /** Every table always has a free slot. */
  lemma FreeSlot(s: State, k: nat) returns (i: nat)
    requires Inv(s) && k < |s.tables|
    ensures i < |s.tables[k].key| && s.tables[k].key[i] == None
  {
    hide CountOk, LockOk, OwnOk, PcsOk, Dist, Limit;
    assert TableShaped(s.tables, k);
    var key := s.tables[k].key;
    if forall i :: 0 <= i < |key| ==> key[i] != None {
      var ts := seq(|key|, i requires 0 <= i < |key| => key[i].value);
      var m := Limit(|key|) - 1;
      forall i | 0 <= i < |ts| ensures ts[i] < |s.ticket| && 0 < s.ticket[ts[i]] < Limit(|key|) {
        assert SlotOk(s, k, i, key[i].value);
      }
      assert m >= 0 by { var b: nat :| |key| == Pow2(b); assert 0 < s.ticket[ts[0]] < Limit(|key|); }
      DistinctBound(ts, Counted(s.ticket, m));
      CountedBound(s, m);
      LimitBelow(|key|);
      assert false;
    }
    i :| 0 <= i < |key| && key[i] == None;
  }

  lemma CountedBound(s: State, m: nat)
    requires CountOk(s)
    ensures |Counted(s.ticket, m)| <= m
  {
  }

  lemma LimitBelow(capacity: nat)
    ensures Limit(capacity) <= capacity
  {
  }

  /** So a run of taken probes is shorter than the table. */
  lemma ProbesBounded(s: State, k: nat, hash: nat, n: nat)
    requires Inv(s) && k < |s.tables| && Filled(s.tables[k], hash, n)
    ensures n < |s.tables[k].key|
  {
    hide SlotsOk, CountOk, LockOk, OwnOk, PcsOk, Dist, Slot;
    var i := FreeSlot(s, k);
    assert TableShaped(s.tables, k);
    SlotOfDist(hash, i, |s.tables[k].key|);
    assert !SlotTaken(s.tables[k], hash, Dist(hash, i, |s.tables[k].key|));
  }

  // ---------------------------------------------------------------------
  // Every step keeps the invariant
  // ---------------------------------------------------------------------

  /** Thread t may add its key to empty slots; nothing else happens to the keys. */
  ghost predicate TableGrew(tab: Table, tab': Table, t: Thread)
  {
    && |tab'.key| == |tab.key| && |tab'.value| == |tab.value| && tab'.prev == tab.prev
    && forall i :: 0 <= i < |tab.key| ==> tab'.key[i] == tab.key[i] || (tab.key[i] == None && tab'.key[i] == Some(t))
  }

  predicate AllEmpty(tab: Table)
  {
    forall i :: 0 <= i < |tab.key| ==> tab.key[i] == None
  }

  ghost predicate Grew(tables: seq<Table>, tables': seq<Table>, t: Thread)
  {
    && |tables| <= |tables'|
    && (forall k :: 0 <= k < |tables| ==> TableGrew(tables[k], tables'[k], t))
    && (forall k :: |tables| <= k < |tables'| ==> AllEmpty(tables'[k]))
  }

  /** A step writes to the tables in three ways only. */
  lemma StepTables(s: State, a: Action)
    requires Sized(s) && Enabled(s, a)
    ensures var s', t := EffectOf(s, a), a.thread;
      var p, h := s.pc[t], s.hash[t];
      if a.Continue? && p.SlotCas? && !SlotTaken(s.tables[p.main], h, p.n) then
        s'.tables == s.tables[p.main := WithKey(s.tables[p.main], Slot(h, p.n, |s.tables[p.main].key|), t)]
      else if a.Continue? && p.SlotStore? then
        s'.tables == s.tables[p.main := WithValue(s.tables[p.main], Slot(h, p.n, |s.tables[p.main].key|), p.value)]
      else if a.Continue? && p.Allocate? && a.succeeds then
        s'.tables == s.tables + [EmptyTable(Grow(2 * |s.tables[p.main].key|, p.newCount), Some(p.main))]
      else s'.tables == s.tables
  {
    hide Slot, Limit, Grow, LoopHead, Decide, EmptyTable;
  }

  function WithKey(tab: Table, i: nat, t: Thread): Table
    requires i < |tab.key|
  {
    tab.(key := tab.key[i := Some(t)])
  }

  function WithValue(tab: Table, i: nat, value: Option<Producer>): Table
    requires i < |tab.value|
  {
    tab.(value := tab.value[i := value])
  }

  lemma StepGrew(s: State, a: Action)
    requires Sized(s) && Enabled(s, a)
    ensures Grew(s.tables, EffectOf(s, a).tables, a.thread)
  {
    StepTables(s, a);
    hide EffectOf, Slot, Grow;
  }

  lemma InGrew(tab: Table, tab': Table, t: Thread, u: Thread)
    requires TableGrew(tab, tab', t) && u != t
    ensures In(tab, u) <==> In(tab', u)
  {
    if In(tab, u) {
      var i :| 0 <= i < |tab.key| && tab.key[i] == Some(u);
      assert tab'.key[i] == Some(u);
    }
    if In(tab', u) {
      var i :| 0 <= i < |tab'.key| && tab'.key[i] == Some(u);
      assert tab.key[i] == Some(u);
    }
  }

  lemma AbsentGrew(tables: seq<Table>, tables': seq<Table>, t: Thread, u: Thread, low: nat)
    requires Grew(tables, tables', t) && u != t && low <= |tables|
    ensures Absent(tables, u, low) <==> Absent(tables', u, low)
  {
    hide TableGrew;
    forall k | low <= k < |tables| ensures In(tables[k], u) <==> In(tables'[k], u) {
      InGrew(tables[k], tables'[k], t, u);
    }
  }

  lemma FilledGrew(tab: Table, tab': Table, t: Thread, h: nat, n: nat)
    requires TableGrew(tab, tab', t) && Filled(tab, h, n)
    ensures Filled(tab', h, n)
  {
    hide Slot;
    forall j | 0 <= j < n ensures SlotTaken(tab', h, j) {
      assert SlotTaken(tab, h, j);
    }
  }

  lemma MissedGrew(tab: Table, tab': Table, t: Thread, u: Thread, h: nat, n: nat)
    requires TableGrew(tab, tab', t) && Missed(tab, h, n, u) && u != t
    ensures Missed(tab', h, n, u)
  {
    hide Slot;
    forall j | 0 <= j < n ensures !SlotHolds(tab', h, j, u) {
      assert !SlotHolds(tab, h, j, u);
    }
  }

  lemma HoldsGrew(tab: Table, tab': Table, t: Thread, u: Thread, h: nat, n: nat)
    requires TableGrew(tab, tab', t) && SlotHolds(tab, h, n, u)
    ensures SlotHolds(tab', h, n, u)
  {
    hide Slot;
  }

  lemma PcOtherKept(tables: seq<Table>, tables': seq<Table>, t: Thread, u: Thread, p: Pc, h: nat, ticket: nat,
          own: Option<Producer>)
    requires Grew(tables, tables', t) && u != t && 0 < |tables|
    requires PcOk(tables, u, p, h, ticket, own)
    ensures PcOk(tables', u, p, h, ticket, own)
  {
    hide Absent, Filled, Missed, SlotHolds, Limit;
    AbsentGrew(tables, tables', t, u, 0);
    match p
    case Probe(main, k, n) =>
      AbsentGrew(tables, tables', t, u, k + 1);
      FilledGrew(tables[k], tables'[k], t, h, n);
      MissedGrew(tables[k], tables'[k], t, u, h, n);
    case ReadValue(main, k, n) =>
      AbsentGrew(tables, tables', t, u, k + 1);
      HoldsGrew(tables[k], tables'[k], t, u, h, n);
    case SlotLoad(main, n, _) =>
      AbsentGrew(tables, tables', t, u, main);
      FilledGrew(tables[main], tables'[main], t, h, n);
    case SlotCas(main, n, _) =>
      AbsentGrew(tables, tables', t, u, main);
      FilledGrew(tables[main], tables'[main], t, h, n);
    case SlotStore(main, n, _) =>
      AbsentGrew(tables, tables', t, u, main + 1);
      HoldsGrew(tables[main], tables'[main], t, u, h, n);
    case _ =>
  }

  /** An empty slot ends the search: the thread is not in this table. */
  lemma EmptyEndsSearch(s: State, k: nat, t: Thread, n: nat)
    requires Inv(s) && k < |s.tables| && t < |s.pc|
    requires var tab := s.tables[k];
      && Filled(tab, s.hash[t], n) && Missed(tab, s.hash[t], n, t) && !SlotTaken(tab, s.hash[t], n)
    ensures !In(s.tables[k], t)
  {
    hide CountOk, LockOk, OwnOk, PcsOk, Slot, Dist, Limit;
    var tab, h := s.tables[k], s.hash[t];
    assert TableShaped(s.tables, k);
    if In(tab, t) {
      var i :| 0 <= i < |tab.key| && tab.key[i] == Some(t);
      var d := Dist(h, i, |tab.key|);
      SlotOfDist(h, i, |tab.key|);
      assert SlotOk(s, k, i, t);
      var met := SlotHolds(tab, h, d, t);
      assert false;
    }
  }

  lemma FilledNext(tab: Table, h: nat, n: nat)
    requires Filled(tab, h, n) && SlotTaken(tab, h, n)
    ensures Filled(tab, h, n + 1)
  {
    hide SlotTaken;
  }

  lemma MissedNext(tab: Table, h: nat, n: nat, t: Thread)
    requires Missed(tab, h, n, t) && !SlotHolds(tab, h, n, t)
    ensures Missed(tab, h, n + 1, t)
  {
    hide SlotHolds;
  }

  // --- the chain of tables

  lemma {:induction false} GrowFits(capacity: nat, newCount: nat)
    requires IsPow2(capacity)
    ensures capacity > 0 && IsPow2(Grow(capacity, newCount))
    ensures Grow(capacity, newCount) >= capacity && newCount < Grow(capacity, newCount) / 2
    decreases 2 * newCount + 2 - capacity
  {
    var b: nat :| capacity == Pow2(b);
    if newCount >= capacity / 2 {
      assert 2 * capacity == Pow2(b + 1);
      GrowFits(2 * capacity, newCount);
    }
  }

  lemma ChainKept(s: State, a: Action)
    requires Inv(s) && Enabled(s, a)
    ensures ChainOk(Next(s, a))
  {
    hide CountOk, SlotsOk, PcsOk, OwnOk, Slot, Limit;
    var p, tables, tables' := s.pc[a.thread], s.tables, Next(s, a).tables;
    StepTables(s, a);
    MainFollows(s, a);
    if a.Continue? && p.Allocate? && a.succeeds {
      ChainGrows(s, a);
    } else {
      hide EffectOf, IsPow2, Grow;
      forall k | 0 <= k < |tables'| ensures TableShaped(tables', k) {
        assert TableShaped(tables, k);
      }
    }
  }

  lemma ChainGrows(s: State, a: Action)
    requires Inv(s) && Enabled(s, a) && a.Continue? && s.pc[a.thread].Allocate? && a.succeeds
    ensures ChainOk(Next(s, a))
  {
    hide CountOk, SlotsOk, PcsOk, OwnOk, Slot, Limit;
    var p, tables, tables' := s.pc[a.thread], s.tables, Next(s, a).tables;
    StepTables(s, a);
    MainFollows(s, a);
    assert TableShaped(tables, p.main);
    assert p.main == s.main;
    DoublePow2(|tables[p.main].key|);
    GrowFits(2 * |tables[p.main].key|, p.newCount);
    hide EffectOf, IsPow2, Grow;
    ChainExtended(tables, tables');
  }

  lemma DoublePow2(c: nat)
    requires IsPow2(c)
    ensures IsPow2(2 * c)
  {
    var b: nat :| c == Pow2(b);
    assert 2 * c == Pow2(b + 1);
  }

  lemma MainFollows(s: State, a: Action)
    requires Sized(s) && Enabled(s, a)
    ensures |EffectOf(s, a).tables| == |s.tables| ==> EffectOf(s, a).main == s.main
    ensures |EffectOf(s, a).tables| > |s.tables| ==> EffectOf(s, a).main == |s.tables|
  {
    hide Slot, Limit, Grow, LoopHead, Decide, EmptyTable;
  }

  lemma ChainExtended(tables: seq<Table>, tables': seq<Table>)
    requires 0 < |tables| && |tables'| == |tables| + 1 && tables'[..|tables|] == tables
    requires forall k :: 0 <= k < |tables| ==> TableShaped(tables, k)
    requires forall j, k :: 0 <= j <= k < |tables| ==> |tables[j].key| <= |tables[k].key|
    requires TableShaped(tables', |tables|) && |tables[|tables| - 1].key| <= |tables'[|tables|].key|
    ensures forall k :: 0 <= k < |tables'| ==> TableShaped(tables', k)
    ensures forall j, k :: 0 <= j <= k < |tables'| ==> |tables'[j].key| <= |tables'[k].key|
  {
    hide IsPow2;
    forall k | 0 <= k < |tables'| ensures TableShaped(tables', k) && (k < |tables| ==> tables'[k] == tables[k]) {
      assert k < |tables| ==> TableShaped(tables, k);
      assert k < |tables| ==> tables'[..|tables|][k] == tables[k];
    }
  }

  // --- the counter

  lemma CountedUpdate(ticket: seq<nat>, t: Thread, x: nat, m: nat)
    requires t < |ticket|
    ensures |Counted(ticket[t := x], m)|
            == |Counted(ticket, m)| - (if 0 < ticket[t] <= m then 1 else 0) + (if 0 < x <= m then 1 else 0)
  {
    var a, b := Counted(ticket, m), Counted(ticket[t := x], m);
    assert b == if 0 < x <= m then a + {t} else a - {t};
    OneElement(a, t);
  }

  lemma AllCountedUpdate(ticket: seq<nat>, t: Thread, x: nat)
    requires t < |ticket|
    ensures |AllCounted(ticket[t := x])|
            == |AllCounted(ticket)| - (if 0 < ticket[t] then 1 else 0) + (if 0 < x then 1 else 0)
  {
    var a, b := AllCounted(ticket), AllCounted(ticket[t := x]);
    assert b == if 0 < x then a + {t} else a - {t};
    OneElement(a, t);
  }

  lemma CountedWithin(ticket: seq<nat>, m: nat)
    ensures |Counted(ticket, m)| <= |AllCounted(ticket)|
  {
    SubsetSize(Counted(ticket, m), AllCounted(ticket));
  }

  lemma OneElement(a: set<Thread>, t: Thread)
    ensures |a + {t}| == |a| + (if t in a then 0 else 1)
    ensures |a - {t}| == |a| - (if t in a then 1 else 0)
  {
    if t in a {
      assert a + {t} == a;
    } else {
      assert a - {t} == a;
    }
  }

  lemma {:induction false} SubsetSize(a: set<Thread>, b: set<Thread>)
    requires a <= b
    ensures |a| <= |b|
  {
    if a != {} {
      var x :| x in a;
      SubsetSize(a - {x}, b - {x});
    }
  }

  /** The ticket counts exactly while the thread is counted. */
  lemma TicketMoves(s: State, a: Action)
    requires Inv(s) && Enabled(s, a)
    ensures var e, old_ := EffectOf(s, a), s.ticket[a.thread];
      || (e.ticket == old_ && e.count == s.count)
      || (old_ == 0 && e.ticket == e.count == s.count + 1)
      || (old_ > 0 && e.ticket == 0 && e.count == s.count - 1)
  {
    hide CountOk, SlotsOk, LockOk, OwnOk, ChainOk, Slot, Limit, Grow, LoopHead, Decide, EmptyTable, Absent, Filled,
         Missed;
    var t := a.thread;
    assert PcOk(s.tables, t, s.pc[t], s.hash[t], s.ticket[t], s.own[t]);
  }

  lemma CountKept(s: State, a: Action)
    requires Inv(s) && Enabled(s, a)
    ensures CountOk(Next(s, a))
  {
    hide SlotsOk, LockOk, OwnOk, ChainOk, PcsOk;
    TicketMoves(s, a);
    hide EffectOf, Counted, AllCounted;
    var t, s' := a.thread, Next(s, a);
    AllCountedUpdate(s.ticket, t, s'.ticket[t]);
    forall m: nat ensures |Counted(s'.ticket, m)| <= m {
      CountedUpdate(s.ticket, t, s'.ticket[t], m);
      CountedWithin(s'.ticket, m);
      assert |Counted(s.ticket, m)| <= m;
    }
  }

  // --- the lock and the producers

  lemma LockKept(s: State, a: Action)
    requires Inv(s) && Enabled(s, a)
    ensures LockOk(Next(s, a))
  {
    hide CountOk, SlotsOk, OwnOk, ChainOk, PcsOk, Slot, Grow, EmptyTable, Limit, LoopHead, Decide;
    var s' := Next(s, a);
    LockMoves(s, a);
    MainMoves(s, a);
    var t, e := a.thread, EffectOf(s, a);
    hide EffectOf;
    assert s'.pc[t] == e.pc && s'.locked == e.locked && s'.main == e.main;
  }

  /** The steps that look at the lock, or are taken under it. */
  predicate AtLock(p: Pc)
  {
    p.TryLock? || Holding(p)
  }

  predicate Unlocking(s: State, e: Effect)
  {
    e.locked == s.locked && e.main == s.main && !Holding(e.pc)
  }

  predicate Entering(p: Pc)
  {
    p.SlotLoad? || p.SlotCas? || p.SlotStore? || p.Create? || p.CreateFailed?
  }

  lemma InsertingAway(s: State, a: Action)
    requires Sized(s) && Enabled(s, a) && a.Continue? && Entering(s.pc[a.thread])
    ensures Unlocking(s, EffectOf(s, a))
  {
    hide LockOk, Sized, PcEnabled, Slot, Grow, EmptyTable, Limit, LoopHead, Decide;
  }

  lemma AwayFromLock(s: State, a: Action)
    requires Sized(s) && Enabled(s, a) && !AtLock(s.pc[a.thread])
    ensures Unlocking(s, EffectOf(s, a))
  {
    hide LockOk, Sized, PcEnabled, Slot, Grow, EmptyTable, Limit, LoopHead, Decide;
    if a.Continue? && Entering(s.pc[a.thread]) {
      InsertingAway(s, a);
      hide EffectOf, Unlocking;
    }
  }

  /** A thread takes the lock only when it is free, and only the holder clears the flag. */
  lemma LockMoves(s: State, a: Action)
    requires Sized(s) && Enabled(s, a)
    ensures var e, p := EffectOf(s, a), s.pc[a.thread];
      && (Holding(e.pc) ==> if Holding(p) then e.locked == s.locked else e.locked && !s.locked)
      && (s.locked && !e.locked ==> Holding(p))
  {
    hide LockOk, Sized, PcEnabled, Slot, Grow, EmptyTable, Limit, LoopHead, Decide;
    if !AtLock(s.pc[a.thread]) {
      AwayFromLock(s, a);
      hide EffectOf;
    }
  }

  /** Only the holder of the lock changes the newest table. */
  lemma MainMoves(s: State, a: Action)
    requires Sized(s) && Enabled(s, a)
    ensures var e, p := EffectOf(s, a), s.pc[a.thread];
      && (e.main != s.main ==> p.Allocate?)
      && (e.pc.Allocate? ==> e.pc.main == e.main && Holding(p))
  {
    hide LockOk, Sized, PcEnabled, Slot, Grow, EmptyTable, Limit, LoopHead, Decide;
    if !AtLock(s.pc[a.thread]) {
      AwayFromLock(s, a);
      hide EffectOf;
    }
  }

  lemma OwnKept(s: State, a: Action)
    requires Inv(s) && Enabled(s, a)
    ensures OwnOk(Next(s, a))
  {
    hide CountOk, SlotsOk, LockOk, ChainOk, PcsOk, Slot, Grow, EmptyTable, Limit, LoopHead, Decide;
    var e, t := EffectOf(s, a), a.thread;
    assert (e.own == s.own[t] && e.made == s.made) || (e.own == Some(s.made) && e.made == s.made + 1);
    hide EffectOf;
  }

  // --- the entries

  /** A thread that is in some table keeps its ticket and its producer. */
  lemma RegisteredStays(s: State, a: Action)
    requires Inv(s) && Enabled(s, a) && !Absent(s.tables, a.thread, 0)
    ensures EffectOf(s, a).ticket == s.ticket[a.thread] && EffectOf(s, a).own == s.own[a.thread]
  {
    hide CountOk, SlotsOk, LockOk, OwnOk, ChainOk, Slot, Limit, Grow, LoopHead, Decide, EmptyTable, Absent, Filled,
         Missed;
    var t := a.thread;
    assert PcOk(s.tables, t, s.pc[t], s.hash[t], s.ticket[t], s.own[t]);
  }

  /** What happens to the value of a taken slot. */
  lemma ValueKept(s: State, a: Action, k: nat, i: nat, u: Thread)
    requires Inv(s) && Enabled(s, a) && k < |s.tables| && i < |s.tables[k].key| && s.tables[k].key[i] == Some(u)
        && u < |s.pc|
    ensures var e := EffectOf(s, a); k < |e.tables| && i < |e.tables[k].value|
    ensures var e, tab, p, h := EffectOf(s, a), s.tables[k], s.pc[u], s.hash[u];
      if u == a.thread && Storing(p, h, k, i, |tab.key|) then e.tables[k].value[i] == s.own[u]
      else e.tables[k].value[i] == tab.value[i]
  {
    hide CountOk, SlotsOk, LockOk, OwnOk, ChainOk, Slot, Limit, Grow, Absent, Filled, Missed, EmptyTable;
    StepTables(s, a);
    StepGrew(s, a);
    var t := a.thread;
    assert TableGrew(s.tables[k], EffectOf(s, a).tables[k], t);
    hide EffectOf;
    assert PcOk(s.tables, t, s.pc[t], s.hash[t], s.ticket[t], s.own[t]);
  }

  lemma OldSlotKept(s: State, a: Action, k: nat, i: nat, u: Thread)
    requires Inv(s) && Enabled(s, a) && k < |s.tables| && i < |s.tables[k].key| && s.tables[k].key[i] == Some(u)
    ensures var s' := Next(s, a);
      && k < |s'.tables| && u < |s'.pc| && i < |s'.tables[k].key| == |s'.tables[k].value|
      && SlotOk(s', k, i, u)
  {
    hide CountOk, LockOk, OwnOk, ChainOk, PcsOk, Slot, Limit, Dist, Filled;
    assert SlotOk(s, k, i, u);
    var t, e := a.thread, EffectOf(s, a);
    StepGrew(s, a);
    assert TableGrew(s.tables[k], e.tables[k], t);
    FilledGrew(s.tables[k], e.tables[k], t, s.hash[u], Dist(s.hash[u], i, |s.tables[k].key|));
    ValueKept(s, a, k, i, u);
    if u == t {
      assert In(s.tables[k], t);
      RegisteredStays(s, a);
    }
    hide EffectOf;
  }

  lemma NewSlotOk(s: State, a: Action)
    requires Inv(s) && Enabled(s, a) && a.Continue? && s.pc[a.thread].SlotCas?
    requires var p := s.pc[a.thread]; !SlotTaken(s.tables[p.main], s.hash[a.thread], p.n)
    ensures var s', t, p := Next(s, a), a.thread, s.pc[a.thread];
      var i := Slot(s.hash[t], p.n, |s.tables[p.main].key|);
      && p.main < |s'.tables| && t < |s'.pc| && i < |s'.tables[p.main].key| == |s'.tables[p.main].value|
      && SlotOk(s', p.main, i, t)
  {
    hide CountOk, LockOk, OwnOk, SlotsOk, Slot, Limit, Dist, Filled, Absent;
    var t, p, e := a.thread, s.pc[a.thread], EffectOf(s, a);
    var h, tab := s.hash[t], s.tables[p.main];
    assert PcOk(s.tables, t, p, h, s.ticket[t], s.own[t]);
    StepGrew(s, a);
    assert TableShaped(s.tables, p.main);
    ProbesBounded(s, p.main, h, p.n);
    DistOfSlot(h, p.n, |tab.key|);
    FilledGrew(tab, e.tables[p.main], t, h, p.n);
  }

  lemma KeysDistinct(tab: Table, i: nat, t: Thread)
    requires Distinct(tab.key) && i < |tab.key| && !In(tab, t)
    ensures Distinct(WithKey(tab, i, t).key)
  {
  }

  lemma SlotsKept(s: State, a: Action)
    requires Inv(s) && Enabled(s, a)
    ensures Sized(Next(s, a)) && SlotsOk(Next(s, a))
  {
    StillSized(s, a);
    var s' := Next(s, a);
    hide EffectOf, Next, Enabled, Inv, SlotOk, Distinct;
    forall k, i | 0 <= k < |s'.tables| && 0 <= i < |s'.tables[k].key| && s'.tables[k].key[i] != None
      ensures s'.tables[k].key[i].value < |s'.pc| && SlotOk(s', k, i, s'.tables[k].key[i].value)
    {
      SlotKept(s, a, k, i);
    }
    forall k | 0 <= k < |s'.tables| ensures Distinct(s'.tables[k].key) {
      StillDistinct(s, a, k);
    }
  }

  lemma SlotKept(s: State, a: Action, k: nat, i: nat)
    requires Inv(s) && Enabled(s, a) && Sized(Next(s, a))
    requires var tables' := Next(s, a).tables; k < |tables'| && i < |tables'[k].key| && tables'[k].key[i] != None
    ensures var s' := Next(s, a);
      s'.tables[k].key[i].value < |s'.pc| && SlotOk(s', k, i, s'.tables[k].key[i].value)
  {
    var s', t, p := Next(s, a), a.thread, s.pc[a.thread];
    StepTables(s, a);
    assert PcOk(s.tables, t, p, s.hash[t], s.ticket[t], s.own[t]);
    hide EffectOf, CountOk, LockOk, OwnOk, ChainOk, PcsOk, Slot, Limit, Dist, Filled, SlotOk, Grow;
    if k < |s.tables| && s.tables[k].key[i] != None {
      OldSlotKept(s, a, k, i, s.tables[k].key[i].value);
    } else {
      NewSlotOk(s, a);
    }
  }

  lemma StillSized(s: State, a: Action)
    requires Inv(s) && Enabled(s, a)
    ensures Sized(Next(s, a))
  {
    StepTables(s, a);
    hide EffectOf, CountOk, LockOk, OwnOk, ChainOk, PcsOk, Slot, Limit, SlotOk, Grow, Distinct;
  }

  lemma StillDistinct(s: State, a: Action, k: nat)
    requires Inv(s) && Enabled(s, a) && k < |Next(s, a).tables|
    ensures Distinct(Next(s, a).tables[k].key)
  {
    var s', t, p := Next(s, a), a.thread, s.pc[a.thread];
    StepTables(s, a);
    assert PcOk(s.tables, t, p, s.hash[t], s.ticket[t], s.own[t]);
    hide EffectOf, CountOk, LockOk, OwnOk, ChainOk, PcsOk, Slot, Limit, Dist, Filled, SlotOk, Grow;
    if k < |s.tables| && s'.tables[k] != s.tables[k] && p.SlotCas? {
      KeysDistinct(s.tables[k], Slot(s.hash[t], p.n, |s.tables[k].key|), t);
    }
  }

  // --- the program counters

  ghost predicate SelfOk(s: State, a: Action)
    requires Sized(s) && Enabled(s, a)
  {
    var e := EffectOf(s, a);
    PcOk(e.tables, a.thread, e.pc, s.hash[a.thread], e.ticket, e.own)
  }

  lemma AbsentDown(tables: seq<Table>, t: Thread, k: nat)
    requires k < |tables| && Absent(tables, t, k + 1) && !In(tables[k], t)
    ensures Absent(tables, t, k)
  {
    hide In;
  }

  lemma ProbeKept(s: State, a: Action)
    requires Inv(s) && Enabled(s, a) && a.Continue? && s.pc[a.thread].Probe?
    ensures SelfOk(s, a)
  {
    hide CountOk, SlotsOk, LockOk, OwnOk, Slot, Limit, Grow, Absent, Filled, Missed, LoopHead, Decide, EmptyTable;
    var t, p := a.thread, s.pc[a.thread];
    var h, k, n := s.hash[t], p.tab, p.n;
    assert PcOk(s.tables, t, p, h, s.ticket[t], s.own[t]);
    assert TableShaped(s.tables, k);
    var tab := s.tables[k];
    if SlotTaken(tab, h, n) {
      if !SlotHolds(tab, h, n, t) {
        FilledNext(tab, h, n);
        MissedNext(tab, h, n, t);
      }
    } else {
      EmptyEndsSearch(s, k, t, n);
      AbsentDown(s.tables, t, k);
      if k > 0 {
        ProbeStart(s.tables[k - 1], h, t);
      }
    }
  }

  lemma ProbeStart(tab: Table, h: nat, t: Thread)
    ensures Filled(tab, h, 0) && Missed(tab, h, 0, t)
  {
  }

  lemma AbsentAbove(tables: seq<Table>, t: Thread, low: nat, k: nat)
    requires (low <= k && Absent(tables, t, low)) || k >= |tables|
    ensures Absent(tables, t, k)
  {
  }

  lemma LimitMonotone(c: nat, d: nat)
    requires c <= d
    ensures Limit(c) <= Limit(d)
  {
  }

  lemma ReadKept(s: State, a: Action)
    requires Inv(s) && Enabled(s, a) && a.Continue? && s.pc[a.thread].ReadValue?
    ensures SelfOk(s, a)
  {
    hide CountOk, LockOk, OwnOk, Slot, Limit, Grow, Absent, Filled, Missed, LoopHead, Decide, EmptyTable;
    var t, p := a.thread, s.pc[a.thread];
    var h, k := s.hash[t], p.tab;
    assert PcOk(s.tables, t, p, h, s.ticket[t], s.own[t]);
    assert TableShaped(s.tables, k);
    assert SlotOk(s, k, Slot(h, p.n, |s.tables[k].key|), t);
    if k != p.main {
      AbsentAbove(s.tables, t, k + 1, p.main);
      ProbeStart(s.tables[p.main], h, t);
      LimitMonotone(|s.tables[k].key|, |s.tables[p.main].key|);
    }
  }

  lemma StartKept(s: State, a: Action)
    requires Inv(s) && Enabled(s, a) && (a.Call? || s.pc[a.thread].LoadMain?)
    ensures SelfOk(s, a)
  {
    hide CountOk, SlotsOk, LockOk, OwnOk, Slot, Limit, Grow, Absent, Filled, Missed, LoopHead, Decide, EmptyTable;
    var t := a.thread;
    assert PcOk(s.tables, t, s.pc[t], s.hash[t], s.ticket[t], s.own[t]);
    AbsentAbove(s.tables, t, s.main + 1, s.main + 1);
    ProbeStart(s.tables[s.main], s.hash[t], t);
  }

  lemma PresentNotAbsent(tables: seq<Table>, t: Thread, k: nat)
    requires k < |tables| && In(tables[k], t)
    ensures !Absent(tables, t, 0)
  {
  }

  lemma AbsentUpdate(tables: seq<Table>, t: Thread, k: nat, tab: Table)
    requires k < |tables| && Absent(tables, t, k + 1)
    ensures Absent(tables[k := tab], t, k + 1)
  {
  }

  lemma InsertKept(s: State, a: Action)
    requires Inv(s) && Enabled(s, a) && a.Continue?
    requires var p := s.pc[a.thread]; p.SlotLoad? || p.SlotCas? || p.SlotStore?
    ensures SelfOk(s, a)
  {
    hide CountOk, SlotsOk, LockOk, OwnOk, Slot, Limit, Grow, Absent, Filled, Missed, LoopHead, Decide, EmptyTable;
    var t, p, e := a.thread, s.pc[a.thread], EffectOf(s, a);
    var h, k, n := s.hash[t], p.main, p.n;
    assert PcOk(s.tables, t, p, h, s.ticket[t], s.own[t]);
    assert TableShaped(s.tables, k);
    var tab := s.tables[k];
    if SlotTaken(tab, h, n) && !p.SlotStore? {
      FilledNext(tab, h, n);
    }
    if p.SlotCas? && !SlotTaken(tab, h, n) {
      AbsentAbove(s.tables, t, k, k + 1);
      AbsentUpdate(s.tables, t, k, e.tables[k]);
    }
    if p.SlotStore? {
      PresentNotAbsent(e.tables, t, k);
    }
  }

  lemma AbsentAppend(tables: seq<Table>, t: Thread, capacity: nat, prev: Option<nat>)
    requires Absent(tables, t, 0)
    ensures Absent(tables + [EmptyTable(capacity, prev)], t, 0)
  {
  }

  lemma DecideOk(tables: seq<Table>, t: Thread, main: nat, h: nat, ticket: nat, own: Option<Producer>)
    requires Waiting(tables, t, main, ticket, own)
    ensures PcOk(tables, t, Decide(tables, main, ticket), h, ticket, own)
    ensures PcOk(tables, t, LoopHead(tables, main, ticket), h, ticket, own)
  {
    hide Limit, Absent;
  }

  /** Going on to the insertion loop, or from its lock to the decision behind it. */
  lemma DecidingKept(s: State, a: Action)
    requires Inv(s) && Enabled(s, a) && a.Continue?
    requires var p := s.pc[a.thread]; p.FetchAdd? || p.TryLock? || p.Unlock? || p.Reload?
    ensures SelfOk(s, a)
  {
    hide CountOk, SlotsOk, LockOk, OwnOk, Slot, Limit, Grow, Absent, Filled, Missed, EmptyTable, Decide, LoopHead;
    var t, p := a.thread, s.pc[a.thread];
    assert PcOk(s.tables, t, p, s.hash[t], s.ticket[t], s.own[t]);
    var main := if p.Reload? then s.main else p.main;
    DecideOk(s.tables, t, main, s.hash[t], if p.FetchAdd? then s.count + 1 else p.newCount, s.own[t]);
  }

  lemma AllocateKept(s: State, a: Action)
    requires Inv(s) && Enabled(s, a) && a.Continue? && s.pc[a.thread].Allocate?
    ensures SelfOk(s, a)
  {
    hide CountOk, SlotsOk, LockOk, OwnOk, Slot, Limit, Grow, Absent, Filled, Missed, EmptyTable, Decide, LoopHead;
    var t, p := a.thread, s.pc[a.thread];
    assert PcOk(s.tables, t, p, s.hash[t], s.ticket[t], s.own[t]);
    AbsentAppend(s.tables, t, Grow(2 * |s.tables[p.main].key|, p.newCount), Some(p.main));
  }

  /** Under the lock, and on the way out after a failed allocation. */
  lemma LeavingKept(s: State, a: Action)
    requires Inv(s) && Enabled(s, a) && a.Continue?
    requires var p := s.pc[a.thread]; p.LockedLoad? || p.AllocFailed? || p.UnlockFailed? || p.CreateFailed?
    ensures SelfOk(s, a)
  {
    hide CountOk, SlotsOk, LockOk, OwnOk, Slot, Limit, Grow, Absent, Filled, Missed, EmptyTable, Decide, LoopHead;
    var t, p := a.thread, s.pc[a.thread];
    assert PcOk(s.tables, t, p, s.hash[t], s.ticket[t], s.own[t]);
  }

  lemma CreateKept(s: State, a: Action)
    requires Inv(s) && Enabled(s, a) && a.Continue? && s.pc[a.thread].Create?
    ensures SelfOk(s, a)
  {
    hide CountOk, SlotsOk, LockOk, OwnOk, Slot, Limit, Grow, Absent, Filled, Missed, EmptyTable, LoopHead, Decide;
    var t, p := a.thread, s.pc[a.thread];
    assert PcOk(s.tables, t, p, s.hash[t], s.ticket[t], s.own[t]);
    AbsentAbove(s.tables, t, 0, p.main);
    ProbeStart(s.tables[p.main], s.hash[t], t);
  }

  lemma PcsKept(s: State, a: Action)
    requires Inv(s) && Enabled(s, a)
    ensures Sized(Next(s, a)) ==> PcsOk(Next(s, a))
  {
    var t, s' := a.thread, Next(s, a);
    var p := s.pc[t];
    if a.Call? || p.LoadMain? {
      StartKept(s, a);
    } else if p.Probe? {
      ProbeKept(s, a);
    } else if p.ReadValue? {
      ReadKept(s, a);
    } else if p.Create? {
      CreateKept(s, a);
    } else if p.SlotLoad? || p.SlotCas? || p.SlotStore? {
      InsertKept(s, a);
    } else if p.FetchAdd? || p.TryLock? || p.Unlock? || p.Reload? {
      DecidingKept(s, a);
    } else if p.Allocate? {
      AllocateKept(s, a);
    } else {
      LeavingKept(s, a);
    }
    StepGrew(s, a);
    hide EffectOf, PcOk, Grew;
    forall u | 0 <= u < |s.pc|
      ensures PcOk(s'.tables, u, s'.pc[u], s'.hash[u], s'.ticket[u], s'.own[u])
    {
      if u != t {
        PcOtherKept(s.tables, s'.tables, t, u, s.pc[u], s.hash[u], s.ticket[u], s.own[u]);
      }
    }
  }

  /** Every step of every thread keeps the invariant. */
  lemma StepKeepsInv(s: State, a: Action)
    requires Inv(s) && Enabled(s, a)
    ensures Inv(Next(s, a))
  {
    hide Next, Enabled;
    ChainKept(s, a);
    CountKept(s, a);
    SlotsKept(s, a);
    LockKept(s, a);
    OwnKept(s, a);
    PcsKept(s, a);
  }

  // ---------------------------------------------------------------------
  // Whole runs
  // ---------------------------------------------------------------------

  /** One empty table whose size is a power of two, and no thread inside a call. */
  ghost predicate Init(s: State)
  {
    && |s.tables| == 1 && s.main == 0 && s.tables[0].prev == None
    && IsPow2(|s.tables[0].key|) && |s.tables[0].value| == |s.tables[0].key| && AllEmpty(s.tables[0])
    && s.count == 0 && !s.locked && s.made == 0
    && |s.hash| == |s.ticket| == |s.own| == |s.pc|
    && forall t :: 0 <= t < |s.pc| ==> s.pc[t] == Done(None) && s.ticket[t] == 0 && s.own[t] == None
  }

  ghost predicate IsRun(states: seq<State>, actions: seq<Action>)
  {
    && |states| == |actions| + 1
    && Init(states[0])
    && forall i :: 0 <= i < |actions| ==> Enabled(states[i], actions[i]) && states[i + 1] == Next(states[i], actions[i])
  }

  lemma InitHasInv(s: State)
    requires Init(s)
    ensures Inv(s)
  {
    assert AllCounted(s.ticket) == {};
    forall m: nat ensures Counted(s.ticket, m) == {} {
    }
    forall t ensures Absent(s.tables, t, 0) {
    }
  }

  lemma {:induction false} RunKeepsInv(states: seq<State>, actions: seq<Action>, i: nat)
    requires IsRun(states, actions) && i < |states|
    ensures Inv(states[i])
  {
    hide Init, Inv, Next;
    if i == 0 {
      InitHasInv(states[0]);
    } else {
      RunKeepsInv(states, actions, i - 1);
      StepKeepsInv(states[i - 1], actions[i - 1]);
    }
  }

  /** A thread inside a call can always take its next step. */
  lemma NeverStuck(s: State, t: Thread, succeeds: bool)
    requires Inv(s) && t < |s.pc| && !s.pc[t].Done?
    ensures Enabled(s, Continue(t, succeeds))
  {
    hide SlotsOk, LockOk, OwnOk, Slot, Limit, Absent, Filled, Missed, Grow;
    var p, h := s.pc[t], s.hash[t];
    assert PcOk(s.tables, t, p, h, s.ticket[t], s.own[t]);
    if p.AllocFailed? || p.CreateFailed? {
      assert t in AllCounted(s.ticket);
    }
    if p.Probe? || p.ReadValue? {
      assert TableShaped(s.tables, p.tab);
      SlotIs(h, p.n, |s.tables[p.tab].key|);
    }
    if p.SlotLoad? || p.SlotCas? || p.SlotStore? {
      assert TableShaped(s.tables, p.main);
      SlotIs(h, p.n, |s.tables[p.main].key|);
    }
    if p.Allocate? {
      assert TableShaped(s.tables, p.main);
      DoublePow2(|s.tables[p.main].key|);
    }
  }

  /** In every reachable state each table has a free slot, which every probe sequence reaches. */
  lemma AlwaysAFreeSlot(states: seq<State>, actions: seq<Action>, i: nat, k: nat, hash: nat) returns (n: nat)
    requires IsRun(states, actions) && i < |states| && k < |states[i].tables|
    ensures var tab := states[i].tables[k]; n < |tab.key| && !SlotTaken(tab, hash, n)
  {
    RunKeepsInv(states, actions, i);
    var s := states[i];
    hide CountOk, SlotsOk, LockOk, OwnOk, PcsOk, Slot, Dist, IsRun;
    var slot := FreeSlot(s, k);
    assert TableShaped(s.tables, k);
    SlotOfDist(hash, slot, |s.tables[k].key|);
    n := Dist(hash, slot, |s.tables[k].key|);
  }

  /** Capacities of tables 0 to k - 1 together. */
  function SumCapacity(tables: seq<Table>, k: nat): nat
    requires k <= |tables|
  {
    if k == 0 then 0 else SumCapacity(tables, k - 1) + tables[k - 1].Capacity()
  }

  /** An upper bound on the probes a thread still has to make in the loop it is in. */
  function Remaining(tables: seq<Table>, p: Pc): int
    requires p.Probe? ==> p.tab < |tables|
    requires p.SlotLoad? || p.SlotCas? ==> p.main < |tables|
  {
    match p
    case Probe(_, k, n) => SumCapacity(tables, k) + tables[k].Capacity() - n
    case SlotLoad(main, n, _) => 2 * (tables[main].Capacity() - n)
    case SlotCas(main, n, _) => 2 * (tables[main].Capacity() - n) - 1
    case _ => 0
  }

  predicate Probing(p: Pc)
  {
    p.Probe? || p.SlotLoad? || p.SlotCas?
  }

  predicate InLoop(tables: seq<Table>, p: Pc)
  {
    (p.Probe? ==> p.tab < |tables|) && (p.SlotLoad? || p.SlotCas? ==> p.main < |tables|)
  }

  lemma {:induction false} SumCapacityGrew(tables: seq<Table>, tables': seq<Table>, t: Thread, k: nat)
    requires Grew(tables, tables', t) && k <= |tables|
    ensures SumCapacity(tables', k) == SumCapacity(tables, k)
  {
    if k > 0 {
      SumCapacityGrew(tables, tables', t, k - 1);
      assert TableGrew(tables[k - 1], tables'[k - 1], t);
    }
  }

  /**
   The probe loops end: a thread inside one has a positive number of probes left, its own steps
   lower that number, and steps of other threads leave it unchanged.
   */
  lemma ProbeLoopsEnd(s: State, a: Action, t: Thread)
    requires Inv(s) && Enabled(s, a) && t < |s.pc| && Probing(s.pc[t])
    ensures InLoop(s.tables, s.pc[t]) && Remaining(s.tables, s.pc[t]) > 0
    ensures t < |Next(s, a).pc|
    ensures InLoop(Next(s, a).tables, Next(s, a).pc[t])
    ensures var before, after := Remaining(s.tables, s.pc[t]), Remaining(Next(s, a).tables, Next(s, a).pc[t]);
      if a.thread != t then after == before && Next(s, a).pc[t] == s.pc[t]
      else Probing(Next(s, a).pc[t]) ==> after < before
  {
    StepKeepsInv(s, a);
    StepGrew(s, a);
    var s' := Next(s, a);
    InLoopBounded(s, t);
    if a.thread != t {
      hide EffectOf, Inv;
      OtherKeepsRemaining(s.tables, s'.tables, a.thread, s.pc[t]);
    } else {
      OwnStepLowers(s, a);
      if Probing(s'.pc[t]) {
        InLoopBounded(s', t);
      }
    }
  }

  lemma OtherKeepsRemaining(tables: seq<Table>, tables': seq<Table>, t: Thread, p: Pc)
    requires Grew(tables, tables', t) && Probing(p) && InLoop(tables, p)
    ensures InLoop(tables', p) && Remaining(tables', p) == Remaining(tables, p)
  {
    if p.Probe? {
      SumCapacityGrew(tables, tables', t, p.tab);
      assert TableGrew(tables[p.tab], tables'[p.tab], t);
    } else {
      assert TableGrew(tables[p.main], tables'[p.main], t);
    }
  }

  lemma InLoopBounded(s: State, t: Thread)
    requires Inv(s) && t < |s.pc| && Probing(s.pc[t])
    ensures InLoop(s.tables, s.pc[t]) && Remaining(s.tables, s.pc[t]) > 0
    ensures s.pc[t].Probe? ==> s.pc[t].n < s.tables[s.pc[t].tab].Capacity()
  {
    hide ChainOk, CountOk, SlotsOk, LockOk, OwnOk, Filled, Missed, Absent, Slot, Limit;
    var p, h := s.pc[t], s.hash[t];
    assert PcOk(s.tables, t, p, h, s.ticket[t], s.own[t]);
    ProbesBounded(s, if p.Probe? then p.tab else p.main, h, p.n);
  }

  lemma ProbeLowers(s: State, a: Action)
    requires Inv(s) && Enabled(s, a) && s.pc[a.thread].Probe?
    ensures var p, e := s.pc[a.thread], EffectOf(s, a);
      && InLoop(s.tables, p)
      && InLoop(e.tables, e.pc)
      && (Probing(e.pc) ==> Remaining(e.tables, e.pc) < Remaining(s.tables, p))
  {
    hide CountOk, SlotsOk, LockOk, OwnOk, Filled, Missed, Absent, Slot, Limit, PcsOk;
    var t := a.thread;
    var p := s.pc[t];
    InLoopBounded(s, t);
    assert TableShaped(s.tables, p.tab);
    assert EffectOf(s, a).tables == s.tables;
  }

  lemma InsertLowers(s: State, a: Action)
    requires Inv(s) && Enabled(s, a) && (s.pc[a.thread].SlotLoad? || s.pc[a.thread].SlotCas?)
    ensures var p, e := s.pc[a.thread], EffectOf(s, a);
      && InLoop(s.tables, p)
      && InLoop(e.tables, e.pc)
      && (Probing(e.pc) ==> Remaining(e.tables, e.pc) < Remaining(s.tables, p))
  {
    hide CountOk, SlotsOk, LockOk, OwnOk, ChainOk, PcsOk, Filled, Missed, Absent, Slot, Limit;
    var t := a.thread;
    var p := s.pc[t];
    InLoopBounded(s, t);
    var e := EffectOf(s, a);
    assert |e.tables| == |s.tables| && |e.tables[p.main].key| == |s.tables[p.main].key|;
    assert Probing(e.pc) ==> e.pc.main == p.main;
  }


  lemma OwnStepLowers(s: State, a: Action)
    requires Inv(s) && Enabled(s, a) && Probing(s.pc[a.thread])
    ensures var p, e := s.pc[a.thread], EffectOf(s, a);
      && InLoop(s.tables, p)
      && InLoop(e.tables, e.pc)
      && (Probing(e.pc) ==> Remaining(e.tables, e.pc) < Remaining(s.tables, p))
  {
    hide Inv, EffectOf, Remaining;
    if s.pc[a.thread].Probe? {
      ProbeLowers(s, a);
    } else {
      InsertLowers(s, a);
    }
  }

  // --- the same producer, always

  /** A thread's producer is made once. */
  lemma OwnStays(s: State, a: Action, t: Thread)
    requires Inv(s) && Enabled(s, a) && t < |s.own| && s.own[t] != None
    ensures t < |Next(s, a).own| && Next(s, a).own[t] == s.own[t]
  {
    hide CountOk, SlotsOk, LockOk, OwnOk, ChainOk, Slot, Limit, Grow, LoopHead, Decide, EmptyTable, Absent, Filled,
         Missed;
    var u := a.thread;
    assert PcOk(s.tables, u, s.pc[u], s.hash[u], s.ticket[u], s.own[u]);
  }

  lemma {:induction false} OwnStaysInRun(states: seq<State>, actions: seq<Action>, i: nat, j: nat, t: Thread)
    requires IsRun(states, actions) && i <= j < |states| && t < |states[i].own| && states[i].own[t] != None
    ensures t < |states[j].own| && states[j].own[t] == states[i].own[t]
  {
    hide Init, Inv, Next;
    if i < j {
      OwnStaysInRun(states, actions, i, j - 1, t);
      RunKeepsInv(states, actions, j - 1);
      OwnStays(states[j - 1], actions[j - 1], t);
    }
  }

  predicate Registering(p: Pc)
  {
    !p.Done? && !p.LoadMain? && !p.Probe? && !p.ReadValue? && !p.SlotLoad? && !p.SlotCas? && !p.SlotStore?
  }

  lemma ResultIsOwn(s: State, t: Thread)
    requires Inv(s) && t < |s.pc|
    ensures s.pc[t].Done? ==> s.pc[t].result == s.own[t]
    ensures s.own[t] != None ==> !Registering(s.pc[t])
  {
    hide CountOk, SlotsOk, LockOk, OwnOk, ChainOk, Absent, Filled, Missed;
    assert PcOk(s.tables, t, s.pc[t], s.hash[t], s.ticket[t], s.own[t]);
  }

  /**
   A thread that once obtained a producer gets that same producer from every later call, whatever
   resizes and migrations other threads carry out, and never counts itself in a second time.
   */
  lemma SameProducerAlways(states: seq<State>, actions: seq<Action>, i: nat, j: nat, t: Thread, v: Producer)
    requires IsRun(states, actions) && i <= j < |states|
    requires t < |states[i].pc| && states[i].pc[t] == Done(Some(v))
    ensures t < |states[j].pc|
    ensures states[j].pc[t].Done? ==> states[j].pc[t].result == Some(v)
    ensures !Registering(states[j].pc[t])
  {
    RunKeepsInv(states, actions, i);
    RunKeepsInv(states, actions, j);
    hide IsRun, CountOk, SlotsOk, LockOk, OwnOk, ChainOk, PcsOk;
    ResultIsOwn(states[i], t);
    OwnStaysInRun(states, actions, i, j, t);
    ResultIsOwn(states[j], t);
  }

  /** Two threads never share a producer. */
  lemma ProducersExclusive(states: seq<State>, actions: seq<Action>, i: nat, j: nat, t: Thread, u: Thread, v: Producer,
          w: Producer)
    requires IsRun(states, actions) && i <= j < |states| && t != u
    requires t < |states[i].pc| && states[i].pc[t] == Done(Some(v))
    requires u < |states[j].pc| && states[j].pc[u] == Done(Some(w))
    ensures v != w
  {
    RunKeepsInv(states, actions, i);
    RunKeepsInv(states, actions, j);
    hide IsRun, CountOk, SlotsOk, LockOk, ChainOk, PcsOk;
    ResultIsOwn(states[i], t);
    OwnStaysInRun(states, actions, i, j, t);
    ResultIsOwn(states[j], u);
  }

  /** Counted already, and not yet given a producer. */
  predicate Getting(p: Pc)
  {
    p.TryLock? || p.LockedLoad? || p.Allocate? || p.Unlock? || p.AllocFailed? || p.Create? || p.CreateFailed?
    || p.Reload?
  }

  function Owners(s: State): set<Thread>
  {
    set t | 0 <= t < |s.own| && s.own[t] != None
  }

  function Applicants(s: State): set<Thread>
  {
    set t | 0 <= t < |s.pc| && Getting(s.pc[t])
  }

  lemma CountedOnce(tables: seq<Table>, t: Thread, p: Pc, h: nat, ticket: nat, own: Option<Producer>)
    requires PcOk(tables, t, p, h, ticket, own)
    ensures ticket > 0 <==> own != None || Getting(p)
    ensures own == None || !Getting(p)
    ensures p.Done? ==> p.result == own
  {
    hide Absent, Filled, Missed, SlotHolds, Limit;
  }

  /**
   At any time the counter is the number of threads that have a producer and of those on the way to one; between
   calls, the number of threads whose last call returned one.
   */
  lemma CountIsExact(states: seq<State>, actions: seq<Action>, i: nat)
    requires IsRun(states, actions) && i < |states|
    ensures var s := states[i];
      && s.count == |Owners(s)| + |Applicants(s)| && Owners(s) !! Applicants(s)
      && ((forall t :: 0 <= t < |s.pc| ==> s.pc[t].Done?) ==>
            s.count == |set t | 0 <= t < |s.pc| && s.pc[t].result != None|)
  {
    RunKeepsInv(states, actions, i);
    hide IsRun, SlotsOk, LockOk, ChainOk, OwnOk, Getting;
    var s := states[i];
    forall t | 0 <= t < |s.pc|
      ensures 0 < s.ticket[t] <==> s.own[t] != None || Getting(s.pc[t])
      ensures s.own[t] == None || !Getting(s.pc[t])
      ensures s.pc[t].Done? ==> s.pc[t].result == s.own[t]
    {
      CountedOnce(s.tables, t, s.pc[t], s.hash[t], s.ticket[t], s.own[t]);
    }
    assert AllCounted(s.ticket) == Owners(s) + Applicants(s);
    DisjointSizes(Owners(s), Applicants(s));
    if forall t :: 0 <= t < |s.pc| ==> s.pc[t].Done? {
      NoneGetting(s);
      assert Owners(s) == set t | 0 <= t < |s.pc| && s.pc[t].result != None;
    }
  }

  lemma DisjointSizes(a: set<Thread>, b: set<Thread>)
    requires a !! b
    ensures |a + b| == |a| + |b|
  {
  }

  lemma NoneGetting(s: State)
    requires forall t :: 0 <= t < |s.pc| ==> s.pc[t].Done?
    ensures Applicants(s) == {}
  {
  }

  /** The thread that has just published a larger table finds room in it without waiting. */
  lemma ResizerInserts(s: State, t: Thread)
    requires Inv(s) && t < |s.pc| && s.pc[t].Allocate?
    ensures var a := Continue(t, true);
      && Enabled(s, a) && t < |Next(s, a).pc|
      && Enabled(Next(s, a), a)
      && EffectOf(Next(s, a), a).pc.Create?
  {
    var a := Continue(t, true);
    NeverStuck(s, t, true);
    StepKeepsInv(s, a);
    NeverStuck(Next(s, a), t, true);
    assert TableShaped(s.tables, s.pc[t].main) by {
      assert PcOk(s.tables, t, s.pc[t], s.hash[t], s.ticket[t], s.own[t]);
    }
    DoublePow2(|s.tables[s.pc[t].main].key|);
    hide Inv, IsPow2, Grow;
    GrowFits(2 * |s.tables[s.pc[t].main].key|, s.pc[t].newCount);
  }

  /**
   The doubling loop of the resize block: of the doublings of twice the capacity, the first whose half
   exceeds the count. The allocation step installs a table of this size.
   */
  method GrowCapacity(capacity: nat, newCount: nat) returns (newCapacity: nat)
    requires capacity > 0
    ensures exists b: nat :: newCapacity == Pow2(b) * (2 * capacity)
    ensures newCount < newCapacity / 2
    ensures forall b: nat :: newCount < Pow2(b) * (2 * capacity) / 2 ==> newCapacity <= Pow2(b) * (2 * capacity)
    ensures newCapacity == Grow(2 * capacity, newCount)
  {
    newCapacity := 2 * capacity;
    ghost var b: nat := 0;
    assert Pow2(0) == 1;
    while newCount >= newCapacity / 2
      invariant newCapacity == Pow2(b) * (2 * capacity) && newCapacity > 0
      invariant b == 0 || newCount >= newCapacity / 4
      invariant Grow(newCapacity, newCount) == Grow(2 * capacity, newCount)
      decreases 2 * newCount + 2 - newCapacity
    {
      DoubledOnce(b, 2 * capacity);
      newCapacity := 2 * newCapacity;
      b := b + 1;
    }
    FirstFits(b, capacity, newCount);
  }

  lemma DoubledOnce(b: nat, m: nat)
    ensures Pow2(b + 1) * m == 2 * (Pow2(b) * m)
  {
  }

  /** No smaller doubling has a half that exceeds the count. */
  lemma FirstFits(b: nat, capacity: nat, newCount: nat)
    requires b == 0 || newCount >= Pow2(b) * (2 * capacity) / 4
    ensures forall c: nat :: newCount < Pow2(c) * (2 * capacity) / 2 ==>
        Pow2(b) * (2 * capacity) <= Pow2(c) * (2 * capacity)
  {
    var m := 2 * capacity;
    forall c: nat | newCount < Pow2(c) * m / 2 ensures Pow2(b) * m <= Pow2(c) * m {
      if c < b {
        DoubledOnce(b - 1, m);
        Pow2Monotone(c, b - 1);
        MulMonotone(Pow2(c), Pow2(b - 1), m);
        assert false;
      } else {
        Pow2Monotone(b, c);
        MulMonotone(Pow2(b), Pow2(c), m);
      }
    }
  }

  lemma MulMonotone(x: nat, y: nat, m: nat)
    requires x <= y
    ensures x * m <= y * m
  {
  }
}
