/**
 The lock-free free list of the concurrent queue, as a transition system.

 Any number of threads run `add` and `try_get`; every step performs at most one
 access to shared memory, and steps of different threads interleave freely.
 The reference count is the raw 32-bit word of the source: its top bit says
 "should be on the free list", the lower 31 bits count references.
 */
module FreeList {

  type Node = nat
  type Thread = nat

  datatype Ptr = Null | Ref(node: Node)
  datatype Owner = Nobody | Client(thread: Thread)

  const SHOULD_BE_ON_FREELIST: nat := 0x8000_0000
  const WORD: nat := 0x1_0000_0000

  /** fetch_add on a 32-bit unsigned word wraps around. */
  function Add32(word: nat, delta: int): nat
  {
    (word + delta) % WORD
  }

  /** The part of the word under REFS_MASK. */
  function Refs(word: nat): nat
  {
    word % SHOULD_BE_ON_FREELIST
  }

  /** What a thread does once it has published (or handed over) a node. */
  datatype After = LeaveAdd | BackToLoop(head: Ptr)

  /** The program counter of a thread, with its live local variables. */
  datatype Pc =
    | Idle
    | PubLoadHead(node: Node, k: After)               // add_knowing_refcount_is_zero
    | PubStoreNext(node: Node, seen: Ptr, k: After)
    | PubStoreRefs(node: Node, seen: Ptr, k: After)
    | PubCas(node: Node, seen: Ptr, k: After)
    | PubRetract(node: Node, seen: Ptr, k: After)
    | GetLoadHead                                     // try_get
    | GetLoadRefs(node: Node)
    | GetCasRefs(node: Node, refs: nat)
    | GetLoadNext(node: Node)
    | GetCasHead(node: Node, after: Ptr)
    | GetAssert(node: Node)
    | GetTake(node: Node)
    | GetRelease(node: Node, seen: Ptr)

  /** A node with its two atomic fields; `owner` is the client that holds it outside the list. */
  datatype Cell = Cell(refs: nat, next: Ptr, owner: Owner)

  datatype State = State(head: Ptr, cell: seq<Cell>, pc: seq<Pc>)

  /** An idle thread may start an operation; a thread inside an operation continues it. */
  datatype Action = Continue | CallAdd(node: Node) | CallTryGet | Create | Give(node: Node, to: Thread)

  ghost predicate Enabled(s: State, t: Thread, a: Action)
  {
    t < |s.pc| &&
    match a
    case Continue => s.pc[t] != Idle && PcShaped(|s.cell|, s.pc[t])
    case CallAdd(n) => s.pc[t] == Idle && n < |s.cell| && s.cell[n].owner == Client(t)
    case CallTryGet => s.pc[t] == Idle
    case Create => s.pc[t] == Idle
    case Give(n, u) => s.pc[t] == Idle && n < |s.cell| && s.cell[n].owner == Client(t) && u < |s.pc|
  }

  /** The loop head of try_get: leave with nothing, or look at the node. */
  function Loop(seen: Ptr): Pc
  {
    match seen
    case Null => Idle
    case Ref(n) => GetLoadRefs(n)
  }

  function Resume(k: After): Pc
  {
    match k
    case LeaveAdd => Idle
    case BackToLoop(seen) => Loop(seen)
  }

  predicate PtrShaped(size: nat, p: Ptr)
  {
    p.Ref? ==> p.node < size
  }

  predicate AfterShaped(size: nat, k: After)
  {
    k.BackToLoop? ==> PtrShaped(size, k.head)
  }

  predicate PcShaped(size: nat, p: Pc)
  {
    match p
    case Idle => true
    case GetLoadHead => true
    case PubLoadHead(n, k) => n < size && AfterShaped(size, k)
    case PubStoreNext(n, h, k) => n < size && PtrShaped(size, h) && AfterShaped(size, k)
    case PubStoreRefs(n, h, k) => n < size && PtrShaped(size, h) && AfterShaped(size, k)
    case PubCas(n, h, k) => n < size && PtrShaped(size, h) && AfterShaped(size, k)
    case PubRetract(n, h, k) => n < size && PtrShaped(size, h) && AfterShaped(size, k)
    case GetCasHead(n, x) => n < size && PtrShaped(size, x)
    case GetRelease(n, h) => n < size && PtrShaped(size, h)
    case _ => p.node < size
  }

  /** A step changes at most the head, one cell and the acting thread. */
  datatype Effect = Effect(head: Ptr, node: nat, cell: Cell, pc: Pc) | Local(pc: Pc)

  function EffectOf(s: State, t: Thread, a: Action): Effect
    requires Enabled(s, t, a)
  {
    match a
    case Create => Effect(s.head, |s.cell|, Cell(0, Null, Client(t)), Idle)
    case Give(n, u) => Effect(s.head, n, s.cell[n].(owner := Client(u)), Idle)
    case CallTryGet => Local(GetLoadHead)
    case CallAdd(n) =>
      var was := s.cell[n].refs;
      Effect(s.head, n, s.cell[n].(refs := Add32(was, SHOULD_BE_ON_FREELIST), owner := Nobody),
             if was == 0 then PubLoadHead(n, LeaveAdd) else Idle)
    case Continue =>
      match s.pc[t]
      case PubLoadHead(n, k) => Local(PubStoreNext(n, s.head, k))
      case PubStoreNext(n, h, k) => Effect(s.head, n, s.cell[n].(next := h), PubStoreRefs(n, h, k))
      case PubStoreRefs(n, h, k) => Effect(s.head, n, s.cell[n].(refs := 1), PubCas(n, h, k))
      case PubCas(n, h, k) =>
        if s.head == h then Effect(Ref(n), n, s.cell[n], Resume(k)) else Local(PubRetract(n, s.head, k))
      case PubRetract(n, h, k) =>
        var was := s.cell[n].refs;
        Effect(s.head, n, s.cell[n].(refs := Add32(was, SHOULD_BE_ON_FREELIST - 1)),
               if was == 1 then PubStoreNext(n, h, k) else Resume(k))
      case GetLoadHead => Local(Loop(s.head))
      case GetLoadRefs(n) =>
        Local(if Refs(s.cell[n].refs) == 0 then GetLoadHead else GetCasRefs(n, s.cell[n].refs))
      case GetCasRefs(n, r) =>
        if s.cell[n].refs == r then Effect(s.head, n, s.cell[n].(refs := Add32(r, 1)), GetLoadNext(n))
        else Local(GetLoadHead)
      case GetLoadNext(n) => Local(GetCasHead(n, s.cell[n].next))
      case GetCasHead(n, x) =>
        if s.head == Ref(n) then Effect(x, n, s.cell[n], GetAssert(n)) else Local(GetRelease(n, s.head))
      case GetAssert(n) => Local(GetTake(n))
      case GetTake(n) =>
        Effect(s.head, n, s.cell[n].(refs := Add32(s.cell[n].refs, -2), owner := Client(t)), Idle)
      case GetRelease(n, h) =>
        var was := s.cell[n].refs;
        Effect(s.head, n, s.cell[n].(refs := Add32(was, -1)),
               if was == SHOULD_BE_ON_FREELIST + 1 then PubLoadHead(n, BackToLoop(h)) else Loop(h))
  }

  function Put<T>(s: seq<T>, i: nat, x: T): seq<T>
    requires i <= |s|
  {
    if i == |s| then s + [x] else s[i := x]
  }

  /** One atomic step of thread t. */
  function Next(s: State, t: Thread, a: Action): State
    requires Enabled(s, t, a)
  {
    var e := EffectOf(s, t, a);
    match e
    case Local(p) => s.(pc := s.pc[t := p])
    case Effect(h, n, c, p) => State(h, Put(s.cell, n, c), s.pc[t := p])
  }

  // ---------------------------------------------------------------------
  // The invariant
  // ---------------------------------------------------------------------

  /** Where a node is in its life cycle. Every node is in exactly one stage. */
  datatype Stage =
    | Owned                     // held by a client
    | Pending                   // flagged; the last holder of a reference must publish it
    | Publishing(worker: Thread) // flagged, no reference left, one thread prepares it
    | Offered(worker: Thread)   // its count is 1 plus readers, the head CAS is still to come
    | Listed                    // on the chain
    | Popped(worker: Thread)    // off the chain, the popper has not yet returned it

  predicate Holds(p: Pc, n: Node)
  {
    (p.GetLoadNext? || p.GetCasHead? || p.GetAssert? || p.GetTake? || p.GetRelease?) && p.node == n
  }

  predicate Preparing(p: Pc, n: Node)
  {
    (p.PubLoadHead? || p.PubStoreNext? || p.PubStoreRefs?) && p.node == n
  }

  predicate Offering(p: Pc, n: Node)
  {
    (p.PubCas? || p.PubRetract?) && p.node == n
  }

  predicate Taking(p: Pc, n: Node)
  {
    (p.GetAssert? || p.GetTake?) && p.node == n
  }

  function Holders(pc: seq<Pc>, n: Node): set<Thread>
  {
    set t | 0 <= t < |pc| && Holds(pc[t], n)
  }

  /** The reference-count word that a stage and a number of holders call for. */
  function Word(stage: Stage, holders: nat): nat
  {
    match stage
    case Owned => holders
    case Pending => SHOULD_BE_ON_FREELIST + holders
    case Publishing(_) => SHOULD_BE_ON_FREELIST + holders
    case Offered(_) => 1 + holders
    case Listed => 1 + holders
    case Popped(_) => 1 + holders
  }

  predicate CellOk(c: Cell, stage: Stage, holders: nat)
  {
    && c.refs == Word(stage, holders)
    && (stage.Pending? ==> holders > 0)
    && (stage.Publishing? ==> holders == 0)
    && (stage.Owned? <==> c.owner != Nobody)
  }

  ghost predicate CountsOk(s: State, stage: seq<Stage>)
  {
    && |stage| == |s.cell|
    && forall n :: 0 <= n < |stage| ==> CellOk(s.cell[n], stage[n], |Holders(s.pc, n)|)
  }

  /** A thread works on a node exactly when the node's stage names that thread. */
  predicate RoleOk(p: Pc, t: Thread, g: Stage, n: Node)
  {
    && (g == Publishing(t) <==> Preparing(p, n))
    && (g == Offered(t) <==> Offering(p, n))
    && (g == Popped(t) <==> Taking(p, n))
  }

  ghost predicate RolesOk(s: State, stage: seq<Stage>)
  {
    && (forall n, t :: 0 <= n < |stage| && 0 <= t < |s.pc| ==> RoleOk(s.pc[t], t, stage[n], n))
    && (forall n :: 0 <= n < |stage| ==> WorkerExists(stage[n], |s.pc|))
  }

  predicate WorkerExists(g: Stage, threads: nat)
  {
    g.Publishing? || g.Offered? || g.Popped? ==> g.worker < threads
  }

  /** What a thread has read about a node it references cannot have changed. */
  predicate ReadOk(cell: seq<Cell>, p: Pc)
  {
    && PcShaped(|cell|, p)
    && (p.PubStoreRefs? || p.PubCas? ==> cell[p.node].next == p.seen)
    && (p.GetCasRefs? ==> Refs(p.refs) != 0)
    && (p.GetCasHead? ==> cell[p.node].next == p.after)
  }

  ghost predicate ReadsOk(s: State)
  {
    && (forall t :: 0 <= t < |s.pc| ==> ReadOk(s.cell, s.pc[t]))
    && PtrShaped(|s.cell|, s.head)
    && (forall n :: 0 <= n < |s.cell| ==> PtrShaped(|s.cell|, s.cell[n].next))
  }

  function PtrAt(chain: seq<Node>, i: nat): Ptr
  {
    if i < |chain| then Ref(chain[i]) else Null
  }

  ghost predicate ChainOk(s: State, stage: seq<Stage>, chain: seq<Node>)
  {
    && |stage| == |s.cell|
    && s.head == PtrAt(chain, 0)
    && (forall i :: 0 <= i < |chain| ==> chain[i] < |s.cell| && s.cell[chain[i]].next == PtrAt(chain, i + 1))
    && (forall i, j :: 0 <= i < j < |chain| ==> chain[i] != chain[j])
    && (forall n :: 0 <= n < |stage| ==> (stage[n].Listed? <==> n in chain))
  }

  ghost predicate Good(s: State, stage: seq<Stage>, chain: seq<Node>)
  {
    && |s.pc| + 2 < SHOULD_BE_ON_FREELIST
    && CountsOk(s, stage)
    && RolesOk(s, stage)
    && ReadsOk(s)
    && ChainOk(s, stage, chain)
  }

  ghost predicate Inv(s: State)
  {
    exists stage, chain :: Good(s, stage, chain)
  }

  // ---------------------------------------------------------------------
  // Lemmas about holders
  // ---------------------------------------------------------------------

  lemma {:induction false} HoldersBound(pc: seq<Pc>, n: Node)
    ensures |Holders(pc, n)| <= |pc|
  {
    if |pc| > 0 {
      var t := |pc| - 1;
      HoldersBound(pc[..t], n);
      assert Holders(pc, n) == Holders(pc[..t], n) + (if Holds(pc[t], n) then {t} else {});
    }
  }

  lemma HoldersUpdate(pc: seq<Pc>, t: Thread, p: Pc, n: Node)
    requires t < |pc|
    ensures |Holders(pc[t := p], n)| ==
            |Holders(pc, n)| - (if Holds(pc[t], n) then 1 else 0) + (if Holds(p, n) then 1 else 0)
  {
    HoldersElsewhere(pc, t, p, n);
    hide Holders, Holds;
    Without(Holders(pc, n), t);
    Without(Holders(pc[t := p], n), t);
  }

  lemma HoldersElsewhere(pc: seq<Pc>, t: Thread, p: Pc, n: Node)
    requires t < |pc|
    ensures Holders(pc[t := p], n) - {t} == Holders(pc, n) - {t}
    ensures t in Holders(pc, n) <==> Holds(pc[t], n)
    ensures t in Holders(pc[t := p], n) <==> Holds(p, n)
  {
    hide Holds;
    forall u ensures u in Holders(pc[t := p], n) - {t} <==> u in Holders(pc, n) - {t} {
    }
  }

  lemma Without(a: set<Thread>, t: Thread)
    ensures |a - {t}| == |a| - (if t in a then 1 else 0)
  {
    if t !in a {
      assert a - {t} == a;
    }
  }

  lemma HolderCounted(pc: seq<Pc>, t: Thread, n: Node)
    requires t < |pc| && Holds(pc[t], n)
    ensures |Holders(pc, n)| > 0
  {
    assert t in Holders(pc, n);
  }

  // ---------------------------------------------------------------------
  // Every step keeps the invariant
  // ---------------------------------------------------------------------

  /** The stage a step moves the touched node to. */
  function StageAfter(s: State, t: Thread, a: Action, g: Stage): Stage
    requires Enabled(s, t, a)
  {
    match a
    case Create => Owned
    case Give(_, _) => g
    case CallTryGet => g
    case CallAdd(n) => if s.cell[n].refs == 0 then Publishing(t) else Pending
    case Continue =>
      match s.pc[t]
      case PubStoreRefs(n, _, _) => Offered(t)
      case PubCas(n, h, _) => if s.head == h then Listed else g
      case PubRetract(n, _, _) => if s.cell[n].refs == 1 then Publishing(t) else Pending
      case GetCasHead(n, _) => if s.head == Ref(n) then Popped(t) else g
      case GetTake(n) => Owned
      case GetRelease(n, _) => if s.cell[n].refs == SHOULD_BE_ON_FREELIST + 1 then Publishing(t) else g
      case _ => g
  }

  /** The stage the touched node must have been in. */
  predicate CameFrom(s: State, t: Thread, a: Action, g: Stage)
    requires Enabled(s, t, a)
  {
    match a
    case Create => true
    case Give(_, _) => g == Owned
    case CallTryGet => true
    case CallAdd(_) => g == Owned
    case Continue =>
      match s.pc[t]
      case PubStoreNext(n, _, _) => g == Publishing(t)
      case PubStoreRefs(n, _, _) => g == Publishing(t)
      case PubCas(n, _, _) => g == Offered(t)
      case PubRetract(n, _, _) => g == Offered(t)
      case GetCasRefs(_, _) => !g.Publishing?
      case GetCasHead(n, _) => s.head == Ref(n) ==> g == Listed
      case GetTake(n) => g == Popped(t)
      case GetRelease(n, _) => !g.Publishing? && (s.cell[n].refs == SHOULD_BE_ON_FREELIST + 1 ==> g == Pending)
      case _ => true
  }

  lemma StageBefore(s: State, t: Thread, a: Action, stage: seq<Stage>, chain: seq<Node>)
    requires Good(s, stage, chain) && Enabled(s, t, a)
    ensures var e := EffectOf(s, t, a); e.Effect? && e.node < |stage| ==> CameFrom(s, t, a, stage[e.node])
  {
    var e := EffectOf(s, t, a);
    if e.Effect? && e.node < |stage| {
      HoldersBound(s.pc, e.node);
      assert RoleOk(s.pc[t], t, stage[e.node], e.node);
      assert CellOk(s.cell[e.node], stage[e.node], |Holders(s.pc, e.node)|);
      if Holds(s.pc[t], e.node) {
        HolderCounted(s.pc, t, e.node);
      }
      if s.head == Ref(e.node) {
        assert chain[0] == e.node;
      }
    }
  }

  function StagesAfter(s: State, t: Thread, a: Action, stage: seq<Stage>): seq<Stage>
    requires Enabled(s, t, a) && |stage| == |s.cell|
  {
    match EffectOf(s, t, a)
    case Local(_) => stage
    case Effect(_, n, _, _) => Put(stage, n, StageAfter(s, t, a, if n < |stage| then stage[n] else Owned))
  }

  function ChainAfter(s: State, t: Thread, a: Action, chain: seq<Node>): seq<Node>
    requires Enabled(s, t, a)
  {
    match EffectOf(s, t, a)
    case Local(_) => chain
    case Effect(_, n, _, p) =>
      if a == Continue && s.pc[t].PubCas? then [n] + chain
      else if p.GetAssert? && |chain| > 0 then chain[1..]
      else chain
  }

  /** Before a step the touched node fits its stage and its holders, and the thread is where the stage says. */
  ghost predicate Fits(s: State, t: Thread, a: Action, g: Stage, holders: nat)
  {
    && Enabled(s, t, a) && EffectOf(s, t, a).Effect?
    && var n := EffectOf(s, t, a).node;
       && n < |s.cell| && CellOk(s.cell[n], g, holders) && RoleOk(s.pc[t], t, g, n)
       && ReadOk(s.cell, s.pc[t]) && CameFrom(s, t, a, g)
       && holders + 2 < SHOULD_BE_ON_FREELIST && (Holds(s.pc[t], n) ==> holders > 0)
  }

  ghost predicate StillFits(s: State, t: Thread, a: Action, g: Stage, holders: nat)
    requires Enabled(s, t, a) && EffectOf(s, t, a).Effect?
  {
    var e := EffectOf(s, t, a);
    var h := holders - (if Holds(s.pc[t], e.node) then 1 else 0) + (if Holds(e.pc, e.node) then 1 else 0);
    h >= 0 && CellOk(e.cell, StageAfter(s, t, a, g), h)
  }

  lemma CallCounts(s: State, t: Thread, a: Action, g: Stage, holders: nat)
    requires Fits(s, t, a, g, holders) && a != Continue
    ensures StillFits(s, t, a, g, holders)
  {
  }

  lemma PublishCounts(s: State, t: Thread, g: Stage, holders: nat)
    requires Fits(s, t, Continue, g, holders)
    requires var p := s.pc[t]; p.PubStoreNext? || p.PubStoreRefs? || p.PubCas? || p.PubRetract?
    ensures StillFits(s, t, Continue, g, holders)
  {
  }

  lemma GetCounts(s: State, t: Thread, g: Stage, holders: nat)
    requires Fits(s, t, Continue, g, holders)
    requires var p := s.pc[t]; p.GetCasRefs? || p.GetCasHead? || p.GetTake? || p.GetRelease?
    ensures StillFits(s, t, Continue, g, holders)
  {
  }

  /** The word, flag and owner of the touched node fit its new stage. */
  lemma CountKept(s: State, t: Thread, a: Action, g: Stage, holders: nat)
    requires Fits(s, t, a, g, holders)
    ensures StillFits(s, t, a, g, holders)
  {
    var p := s.pc[t];
    if a != Continue {
      CallCounts(s, t, a, g, holders);
    } else if p.PubStoreNext? || p.PubStoreRefs? || p.PubCas? || p.PubRetract? {
      PublishCounts(s, t, g, holders);
    } else {
      GetCounts(s, t, g, holders);
    }
    hide StillFits, CellOk;
  }

  /** A step takes and drops references only on the node it touches. */
  lemma HoldsElsewhere(s: State, t: Thread, a: Action, n: Node)
    requires Enabled(s, t, a)
    requires var e := EffectOf(s, t, a); e.Effect? ==> e.node != n
    ensures Holds(EffectOf(s, t, a).pc, n) == Holds(s.pc[t], n)
  {
  }

  lemma CountsKept(s: State, t: Thread, a: Action, stage: seq<Stage>, chain: seq<Node>)
    requires Good(s, stage, chain) && Enabled(s, t, a)
    ensures CountsOk(Next(s, t, a), StagesAfter(s, t, a, stage))
  {
    var e, s', stage' := EffectOf(s, t, a), Next(s, t, a), StagesAfter(s, t, a, stage);
    forall n | 0 <= n < |stage'| ensures CellOk(s'.cell[n], stage'[n], |Holders(s'.pc, n)|) {
      HoldersUpdate(s.pc, t, e.pc, n);
      HoldersBound(s.pc, n);
      if n < |stage| {
        assert CellOk(s.cell[n], stage[n], |Holders(s.pc, n)|);
        if e.Effect? && e.node == n {
          StageBefore(s, t, a, stage, chain);
          assert RoleOk(s.pc[t], t, stage[n], n);
          if Holds(s.pc[t], n) {
            HolderCounted(s.pc, t, n);
          }
          CountKept(s, t, a, stage[n], |Holders(s.pc, n)|);
        } else {
          HoldsElsewhere(s, t, a, n);
        }
      } else {
        NoHoldersYet(s, n);
      }
    }
  }

  lemma NoHoldersYet(s: State, n: Node)
    requires ReadsOk(s) && n >= |s.cell|
    ensures Holders(s.pc, n) == {}
  {
    forall t | 0 <= t < |s.pc| ensures !Holds(s.pc[t], n) {
      assert ReadOk(s.cell, s.pc[t]);
    }
  }

  lemma RoleKept(s: State, t: Thread, a: Action, g: Stage, n: Node, u: Thread)
    requires Enabled(s, t, a) && u < |s.pc|
    requires n < |s.cell| && RoleOk(s.pc[u], u, g, n) && RoleOk(s.pc[t], t, g, n)
    requires var e := EffectOf(s, t, a); e.Effect? && e.node == n ==> CameFrom(s, t, a, g)
    ensures var e := EffectOf(s, t, a);
            RoleOk(if u == t then e.pc else s.pc[u], u, if e.Effect?
                && e.node == n then StageAfter(s, t, a, g) else g, n)
  {
  }

  lemma RolesKept(s: State, t: Thread, a: Action, stage: seq<Stage>, chain: seq<Node>)
    requires Good(s, stage, chain) && Enabled(s, t, a)
    ensures RolesOk(Next(s, t, a), StagesAfter(s, t, a, stage))
  {
    var e, s', stage' := EffectOf(s, t, a), Next(s, t, a), StagesAfter(s, t, a, stage);
    StageBefore(s, t, a, stage, chain);
    forall n, u | 0 <= n < |stage'| && 0 <= u < |s'.pc| ensures RoleOk(s'.pc[u], u, stage'[n], n) {
      if n < |stage| {
        assert RoleOk(s.pc[u], u, stage[n], n) && RoleOk(s.pc[t], t, stage[n], n);
        RoleKept(s, t, a, stage[n], n, u);
      } else {
        assert ReadOk(s.cell, s.pc[u]);
      }
    }
  }

  /** Whatever another thread relies on about a node it references is left alone. */
  ghost predicate ReadsFit(s: State, t: Thread, a: Action, u: Thread, g: Stage)
  {
    && Enabled(s, t, a) && u < |s.pc| && ReadOk(s.cell, s.pc[u]) && ReadOk(s.cell, s.pc[t])
    && PtrShaped(|s.cell|, s.head)
    && (forall n :: 0 <= n < |s.cell| ==> PtrShaped(|s.cell|, s.cell[n].next))
    && var e := EffectOf(s, t, a);
       e.Effect? && e.node < |s.cell| ==>
         && CameFrom(s, t, a, g) && RoleOk(s.pc[u], u, g, e.node)
         && (g.Publishing? ==> !Holds(s.pc[u], e.node))
  }

  lemma ReadKeptByOther(s: State, t: Thread, a: Action, u: Thread, g: Stage)
    requires ReadsFit(s, t, a, u, g) && u != t
    ensures ReadOk(Next(s, t, a).cell, Next(s, t, a).pc[u])
  {
  }

  lemma ReadKept(s: State, t: Thread, a: Action, u: Thread, g: Stage)
    requires ReadsFit(s, t, a, u, g)
    ensures ReadOk(Next(s, t, a).cell, Next(s, t, a).pc[u])
  {
    if u != t {
      ReadKeptByOther(s, t, a, u, g);
      hide ReadOk, EffectOf;
    }
  }

  lemma ReadsKept(s: State, t: Thread, a: Action, stage: seq<Stage>, chain: seq<Node>)
    requires Good(s, stage, chain) && Enabled(s, t, a)
    ensures ReadsOk(Next(s, t, a))
  {
    var e, s' := EffectOf(s, t, a), Next(s, t, a);
    StageBefore(s, t, a, stage, chain);
    assert ReadOk(s.cell, s.pc[t]);
    forall u | 0 <= u < |s'.pc| ensures ReadOk(s'.cell, s'.pc[u]) {
      assert ReadOk(s.cell, s.pc[u]);
      if e.Effect? && e.node < |s.cell| {
        assert RoleOk(s.pc[u], u, stage[e.node], e.node);
        assert CellOk(s.cell[e.node], stage[e.node], |Holders(s.pc, e.node)|);
        if Holds(s.pc[u], e.node) {
          HolderCounted(s.pc, u, e.node);
        }
        ReadKept(s, t, a, u, stage[e.node]);
      } else {
        ReadKept(s, t, a, u, Owned);
      }
    }
    PointersKept(s, t, a);
  }

  lemma PointersKept(s: State, t: Thread, a: Action)
    requires ReadsOk(s) && Enabled(s, t, a)
    ensures var s' := Next(s, t, a);
            && PtrShaped(|s'.cell|, s'.head)
            && forall n :: 0 <= n < |s'.cell| ==> PtrShaped(|s'.cell|, s'.cell[n].next)
  {
    assert ReadOk(s.cell, s.pc[t]);
  }

  lemma ChainFramed(s: State, stage: seq<Stage>, chain: seq<Node>, n: Node, c: Cell, g: Stage)
    requires ChainOk(s, stage, chain) && n <= |s.cell|
    requires n < |s.cell| ==> (g.Listed? <==> stage[n].Listed?) && (stage[n].Listed? ==> c.next == s.cell[n].next)
    requires n == |s.cell| ==> !g.Listed?
    ensures forall h, pc :: h == s.head ==> ChainOk(State(h, Put(s.cell, n, c), pc), Put(stage, n, g), chain)
  {
  }

  lemma ChainPushed(s: State, stage: seq<Stage>, chain: seq<Node>, n: Node)
    requires ChainOk(s, stage, chain) && n < |s.cell| && !stage[n].Listed? && s.cell[n].next == s.head
    ensures forall pc :: ChainOk(State(Ref(n), s.cell, pc), stage[n := Listed], [n] + chain)
  {
    var chain' := [n] + chain;
    assert forall i :: 0 < i <= |chain| ==> chain'[i] == chain[i - 1];
    assert forall i :: 0 < i <= |chain'| ==> PtrAt(chain', i) == PtrAt(chain, i - 1);
    assert forall m :: m in chain' <==> m == n || m in chain;
  }

  lemma ChainPopped(s: State, stage: seq<Stage>, chain: seq<Node>, n: Node, t: Thread)
    requires ChainOk(s, stage, chain) && n < |s.cell| && s.head == Ref(n)
    ensures |chain| > 0 && chain[0] == n
    ensures forall pc :: ChainOk(State(s.cell[n].next, s.cell, pc), stage[n := Popped(t)], chain[1..])
  {
    var chain' := chain[1..];
    assert forall i :: 0 <= i <= |chain'| ==> PtrAt(chain', i) == PtrAt(chain, i + 1);
    assert chain == [n] + chain';
    assert forall m :: m in chain <==> m == n || m in chain';
  }

  lemma ChainKept(s: State, t: Thread, a: Action, stage: seq<Stage>, chain: seq<Node>)
    requires Good(s, stage, chain) && Enabled(s, t, a)
    ensures ChainOk(Next(s, t, a), StagesAfter(s, t, a, stage), ChainAfter(s, t, a, chain))
  {
    StageBefore(s, t, a, stage, chain);
    assert ReadOk(s.cell, s.pc[t]);
    var e := EffectOf(s, t, a);
    if e.Effect? {
      if a == Continue && s.pc[t].PubCas? {
        ChainPushed(s, stage, chain, e.node);
        assert Put(s.cell, e.node, e.cell) == s.cell;
      } else if e.pc.GetAssert? {
        ChainPopped(s, stage, chain, e.node, t);
        assert Put(s.cell, e.node, e.cell) == s.cell;
      } else {
        ChainFramed(s, stage, chain, e.node, e.cell, StageAfter(s, t, a, if e.node < |stage| then stage[e.node]
            else Owned));
      }
    }
  }

  /** Every step of every thread keeps the invariant. */
  lemma StepKeepsInv(s: State, t: Thread, a: Action)
    requires Inv(s) && Enabled(s, t, a)
    ensures Inv(Next(s, t, a))
  {
    var stage: seq<Stage>, chain: seq<Node> :| Good(s, stage, chain);
    CountsKept(s, t, a, stage, chain);
    RolesKept(s, t, a, stage, chain);
    ReadsKept(s, t, a, stage, chain);
    ChainKept(s, t, a, stage, chain);
    assert Good(Next(s, t, a), StagesAfter(s, t, a, stage), ChainAfter(s, t, a, chain));
  }

  // ---------------------------------------------------------------------
  // Whole runs
  // ---------------------------------------------------------------------

  /** At the start the list is empty, no thread is inside it, and clients hold all nodes. */
  ghost predicate Init(s: State)
  {
    && s.head == Null
    && |s.pc| + 2 < SHOULD_BE_ON_FREELIST
    && (forall t :: 0 <= t < |s.pc| ==> s.pc[t] == Idle)
    && (forall n :: 0 <= n < |s.cell| ==> s.cell[n].refs == 0 && s.cell[n].next == Null && s.cell[n].owner.Client?)
  }

  datatype Move = Move(thread: Thread, action: Action)

  /** states[0], states[1], ... is an interleaving: each state follows by one step of some thread. */
  ghost predicate IsRun(states: seq<State>, moves: seq<Move>)
  {
    && |states| == |moves| + 1
    && forall i :: 0 <= i < |moves| ==>
         && Enabled(states[i], moves[i].thread, moves[i].action)
         && states[i + 1] == Next(states[i], moves[i].thread, moves[i].action)
  }

  lemma InitHasInv(s: State)
    requires Init(s)
    ensures Inv(s)
  {
    var stage := seq(|s.cell|, i => Owned);
    forall n ensures Holders(s.pc, n) == {} {
    }
    assert Good(s, stage, []);
  }

  /** The invariant holds in every reachable state. */
  lemma {:induction false} RunKeepsInv(states: seq<State>, moves: seq<Move>, i: nat)
    requires IsRun(states, moves) && Init(states[0]) && i < |states|
    ensures Inv(states[i])
  {
    if i == 0 {
      InitHasInv(states[0]);
    } else {
      RunKeepsInv(states, moves, i - 1);
      StepKeepsInv(states[i - 1], moves[i - 1].thread, moves[i - 1].action);
    }
  }

  /** A thread inside an operation can always take its next step. */
  lemma NeverStuck(s: State, t: Thread)
    requires Inv(s) && t < |s.pc| && s.pc[t] != Idle
    ensures Enabled(s, t, Continue)
  {
    var stage: seq<Stage>, chain: seq<Node> :| Good(s, stage, chain);
    assert ReadOk(s.cell, s.pc[t]);
  }

  /** `chain` lists the nodes met by following the next pointers from the head. */
  ghost predicate IsChain(s: State, chain: seq<Node>)
  {
    && s.head == PtrAt(chain, 0)
    && forall i :: 0 <= i < |chain| ==> chain[i] < |s.cell| && s.cell[chain[i]].next == PtrAt(chain, i + 1)
  }

  /** There is at most one such chain. */
  lemma {:induction false} ChainUnique(s: State, c: seq<Node>, d: seq<Node>, i: nat)
    requires IsChain(s, c) && IsChain(s, d) && i <= |c|
    ensures i <= |d| && PtrAt(c, i) == PtrAt(d, i)
  {
    if i > 0 {
      ChainUnique(s, c, d, i - 1);
      assert PtrAt(c, i - 1) == Ref(c[i - 1]);
      assert PtrAt(d, i - 1) == Ref(d[i - 1]);
      hide IsChain;
      ChainStep(s, c, i - 1);
      ChainStep(s, d, i - 1);
    }
  }

  lemma SameChain(s: State, c: seq<Node>, d: seq<Node>)
    requires IsChain(s, c) && IsChain(s, d)
    ensures c == d
  {
    hide IsChain;
    ChainUnique(s, c, d, |c|);
    ChainUnique(s, d, c, |d|);
    forall k | 0 <= k < |c| ensures c[k] == d[k] {
      ChainUnique(s, c, d, k);
    }
  }

  lemma ChainStep(s: State, c: seq<Node>, i: nat)
    requires IsChain(s, c) && i < |c|
    ensures c[i] < |s.cell| && s.cell[c[i]].next == PtrAt(c, i + 1)
  {
  }

  /**
   In every reachable state the list is a finite chain without repetition that contains
   no node held by a client, and no thread is publishing or about to return such a node.
   */
  lemma OwnershipIsExclusive(states: seq<State>, moves: seq<Move>, i: nat) returns (chain: seq<Node>)
    requires IsRun(states, moves) && Init(states[0]) && i < |states|
    ensures var s := states[i];
      && IsChain(s, chain)
      && (forall j, k :: 0 <= j < k < |chain| ==> chain[j] != chain[k])
      && (forall j :: 0 <= j < |chain| ==> s.cell[chain[j]].owner == Nobody)
      && (forall n, t :: 0 <= n < |s.cell| && s.cell[n].owner.Client? && 0 <= t < |s.pc| ==>
            !Preparing(s.pc[t], n) && !Offering(s.pc[t], n) && !Taking(s.pc[t], n))
      && (forall n, t, u | 0 <= n < |s.cell| && 0 <= t < |s.pc| && 0 <= u < |s.pc| ::
            Taking(s.pc[t], n) && Taking(s.pc[u], n) ==> t == u)
  {
    RunKeepsInv(states, moves, i);
    var s := states[i];
    var stage: seq<Stage>, c: seq<Node> :| Good(s, stage, c);
    chain := c;
    forall j | 0 <= j < |chain| ensures s.cell[chain[j]].owner == Nobody {
      assert CellOk(s.cell[chain[j]], stage[chain[j]], |Holders(s.pc, chain[j])|);
      assert stage[chain[j]].Listed?;
    }
    forall n, t | 0 <= n < |s.cell| && 0 <= t < |s.pc|
      ensures RoleOk(s.pc[t], t, stage[n], n) && (s.cell[n].owner.Client? ==> stage[n].Owned?)
    {
      assert CellOk(s.cell[n], stage[n], |Holders(s.pc, n)|);
    }
    forall n, t, u | 0 <= n < |s.cell| && 0 <= t < |s.pc| && 0 <= u < |s.pc| && Taking(s.pc[t], n) && Taking(s.pc[u], n)
      ensures t == u
    {
      assert RoleOk(s.pc[t], t, stage[n], n) && RoleOk(s.pc[u], u, stage[n], n);
    }
  }

  predicate Releases(a: Action, n: Node)
  {
    a == CallAdd(n) || (a.Give? && a.node == n)
  }

  /** A held node stays with its client in every step except that client's own add or hand-over. */
  lemma OwnerStays(s: State, m: Move, n: Node, t: Thread)
    requires Inv(s) && Enabled(s, m.thread, m.action)
    requires n < |s.cell| && s.cell[n].owner == Client(t)
    ensures Next(s, m.thread, m.action).cell[n].owner == Client(t)
            || (m.thread == t && Releases(m.action, n))
    ensures s.pc[m.thread] != GetTake(n)
  {
    var stage: seq<Stage>, chain: seq<Node> :| Good(s, stage, chain);
    assert CellOk(s.cell[n], stage[n], |Holders(s.pc, n)|);
    assert RoleOk(s.pc[m.thread], m.thread, stage[n], n);
  }

  /**
   Once a node is in the hands of client t, then whatever all threads do, it stays with t
   and try_get hands it to nobody, until t itself adds it back or gives it away.
   */
  lemma {:induction false} HandedOutUntilAdded(states: seq<State>, moves: seq<Move>, i: nat, k: nat, n: Node, t: Thread)
    requires IsRun(states, moves) && Init(states[0]) && i <= k < |states|
    requires n < |states[i].cell| && states[i].cell[n].owner == Client(t)
    requires forall j :: i <= j < k ==> moves[j].thread != t || !Releases(moves[j].action, n)
    ensures n < |states[k].cell| && states[k].cell[n].owner == Client(t)
    ensures forall j :: i <= j < k ==> states[j].pc[moves[j].thread] != GetTake(n)
  {
    hide Init, Inv;
    if i < k {
      HandedOutUntilAdded(states, moves, i, k - 1, n, t);
      RunKeepsInv(states, moves, k - 1);
      OwnerStays(states[k - 1], moves[k - 1], n, t);
    }
  }

  /**
   The word accounts exactly for the readers' references, plus one for list membership,
   for a publish in flight, or (the popper's second reference) for a node just popped.
   The top bit is set exactly on nodes that still have to be published.
   */
  lemma RefsAccounting(states: seq<State>, moves: seq<Move>, i: nat, chain: seq<Node>, n: Node)
    requires IsRun(states, moves) && Init(states[0]) && i < |states|
    requires IsChain(states[i], chain) && n < |states[i].cell|
    ensures var s := states[i];
      var publishing := exists t :: 0 <= t < |s.pc| && Offering(s.pc[t], n);
      var popped := exists t :: 0 <= t < |s.pc| && Taking(s.pc[t], n);
      && Refs(s.cell[n].refs) == |Holders(s.pc, n)| + (if n in chain || publishing || popped then 1 else 0)
      && (s.cell[n].refs >= SHOULD_BE_ON_FREELIST <==>
            s.cell[n].owner == Nobody && n !in chain && !publishing && !popped)
      && s.cell[n].refs < WORD
  {
    hide IsRun, Init, IsChain, Good, Holders, Offering, Taking;
    var stage := StagesAt(states, moves, i, chain);
    StageAccounts(states[i], stage, chain, n);
  }

  lemma StageAccounts(s: State, stage: seq<Stage>, chain: seq<Node>, n: Node)
    requires Good(s, stage, chain) && n < |s.cell|
    ensures var publishing := exists t :: 0 <= t < |s.pc| && Offering(s.pc[t], n);
      var popped := exists t :: 0 <= t < |s.pc| && Taking(s.pc[t], n);
      && Refs(s.cell[n].refs) == |Holders(s.pc, n)| + (if n in chain || publishing || popped then 1 else 0)
      && (s.cell[n].refs >= SHOULD_BE_ON_FREELIST <==>
            s.cell[n].owner == Nobody && n !in chain && !publishing && !popped)
      && s.cell[n].refs < WORD
  {
    hide RolesOk, ReadsOk, Holders, Offering, Taking, Refs, Word;
    HoldersBound(s.pc, n);
    WordParts(s.cell[n], stage[n], |Holders(s.pc, n)|);
    WorkersNamed(s, stage, n);
  }

  /** The two fields of the word. */
  lemma WordParts(c: Cell, g: Stage, holders: nat)
    requires CellOk(c, g, holders) && holders + 2 < SHOULD_BE_ON_FREELIST
    ensures Refs(c.refs) == holders + (if g.Offered? || g.Listed? || g.Popped? then 1 else 0)
    ensures c.refs >= SHOULD_BE_ON_FREELIST <==> g.Pending? || g.Publishing?
    ensures c.refs < WORD
  {
  }

  /** The stages in a reachable state, together with its (unique) chain. */
  lemma StagesAt(states: seq<State>, moves: seq<Move>, i: nat, chain: seq<Node>) returns (stage: seq<Stage>)
    requires IsRun(states, moves) && Init(states[0]) && i < |states| && IsChain(states[i], chain)
    ensures Good(states[i], stage, chain)
  {
    hide IsRun, Init, CountsOk, RolesOk, ReadsOk;
    RunKeepsInv(states, moves, i);
    var g: seq<Stage>, c: seq<Node> :| Good(states[i], g, c);
    SameChain(states[i], c, chain);
    stage := g;
  }

  lemma WorkersNamed(s: State, stage: seq<Stage>, n: Node)
    requires RolesOk(s, stage) && n < |stage|
    ensures stage[n].Offered? <==> exists t :: 0 <= t < |s.pc| && Offering(s.pc[t], n)
    ensures stage[n].Popped? <==> exists t :: 0 <= t < |s.pc| && Taking(s.pc[t], n)
    ensures stage[n].Publishing? <==> exists t :: 0 <= t < |s.pc| && Preparing(s.pc[t], n)
  {
    assert WorkerExists(stage[n], |s.pc|);
    forall t | 0 <= t < |s.pc| ensures RoleOk(s.pc[t], t, stage[n], n) {
    }
    if stage[n].Offered? || stage[n].Popped? || stage[n].Publishing? {
      assert RoleOk(s.pc[stage[n].worker], stage[n].worker, stage[n], n);
    }
  }

  /** The assertion at line 1396 holds: a popped node does not carry the flag, and its count is at least two. */
  lemma PoppedNodeUnflagged(states: seq<State>, moves: seq<Move>, i: nat, t: Thread)
    requires IsRun(states, moves) && Init(states[0]) && i < |states| && t < |states[i].pc|
    requires states[i].pc[t].GetAssert? || states[i].pc[t].GetTake?
    ensures var n := states[i].pc[t].node;
            n < |states[i].cell| && 2 <= states[i].cell[n].refs < SHOULD_BE_ON_FREELIST
  {
    RunKeepsInv(states, moves, i);
    var s := states[i];
    var stage: seq<Stage>, c: seq<Node> :| Good(s, stage, c);
    assert ReadOk(s.cell, s.pc[t]);
    var n := s.pc[t].node;
    assert RoleOk(s.pc[t], t, stage[n], n);
    assert CellOk(s.cell[n], stage[n], |Holders(s.pc, n)|);
    HoldersBound(s.pc, n);
    HolderCounted(s.pc, t, n);
  }

  /** No ABA: when the head CAS of try_get succeeds, it installs the popped node's current next. */
  lemma HeadCasInstallsCurrentNext(states: seq<State>, moves: seq<Move>, i: nat, t: Thread)
    requires IsRun(states, moves) && Init(states[0]) && i < |states| && t < |states[i].pc|
    requires states[i].pc[t].GetCasHead?
    ensures var s := states[i];
            s.pc[t].node < |s.cell| && s.cell[s.pc[t].node].next == s.pc[t].after
    ensures var s := states[i];
            Enabled(s, t, Continue) &&
            (s.head == Ref(s.pc[t].node) ==> Next(s, t, Continue).head == s.cell[s.pc[t].node].next)
  {
    RunKeepsInv(states, moves, i);
    var stage: seq<Stage>, c: seq<Node> :| Good(states[i], stage, c);
    assert ReadOk(states[i].cell, states[i].pc[t]);
  }

  /**
   No added node is lost: a node that is neither held nor listed is in the hands of a thread
   that will publish or return it, or a reader still references it; and the reader that drops
   the last reference becomes the publisher.
   */
  lemma NothingIsLost(states: seq<State>, moves: seq<Move>, i: nat, chain: seq<Node>, n: Node)
    requires IsRun(states, moves) && Init(states[0]) && i < |states|
    requires IsChain(states[i], chain) && n < |states[i].cell|
    ensures var s := states[i];
      s.cell[n].owner == Nobody && n !in chain ==>
        exists t :: 0 <= t < |s.pc| &&
          (Preparing(s.pc[t], n) || Offering(s.pc[t], n) || Taking(s.pc[t], n)
           || (Holds(s.pc[t], n) && s.cell[n].refs > SHOULD_BE_ON_FREELIST))
    ensures var s := states[i];
      forall t :: 0 <= t < |s.pc| && s.pc[t].GetRelease? && s.pc[t].node == n
        && s.cell[n].owner == Nobody && n !in chain && Holders(s.pc, n) == {t}
        && (forall u :: 0 <= u < |s.pc| ==> !Offering(s.pc[u], n))
        ==> Enabled(s, t, Continue) && Preparing(Next(s, t, Continue).pc[t], n)
  {
    var stage := StagesAt(states, moves, i, chain);
    var s := states[i];
    HoldersBound(s.pc, n);
    assert CellOk(s.cell[n], stage[n], |Holders(s.pc, n)|);
    WorkersNamed(s, stage, n);
    if stage[n].Pending? {
      var t :| t in Holders(s.pc, n);
    }
    forall t | 0 <= t < |s.pc| && s.pc[t].GetRelease? && s.pc[t].node == n
      && s.cell[n].owner == Nobody && n !in chain && Holders(s.pc, n) == {t}
      && (forall u :: 0 <= u < |s.pc| ==> !Offering(s.pc[u], n))
      ensures Enabled(s, t, Continue) && Preparing(Next(s, t, Continue).pc[t], n)
    {
      NeverStuck(s, t);
      assert forall u :: 0 <= u < |s.pc| && Taking(s.pc[u], n) ==> u in Holders(s.pc, n);
    }
  }

  /** With no operation under way, every node is either held by a client or on the list, never both. */
  lemma QuiescentListIsComplete(states: seq<State>, moves: seq<Move>, i: nat, chain: seq<Node>, n: Node)
    requires IsRun(states, moves) && Init(states[0]) && i < |states|
    requires IsChain(states[i], chain) && n < |states[i].cell|
    requires forall t :: 0 <= t < |states[i].pc| ==> states[i].pc[t] == Idle
    ensures n in chain <==> states[i].cell[n].owner == Nobody
    ensures states[i].cell[n].refs == if n in chain then 1 else 0
  {
    hide IsRun, Init, IsChain;
    var stage := StagesAt(states, moves, i, chain);
    hide RolesOk, ReadsOk;
    var s := states[i];
    assert CellOk(s.cell[n], stage[n], |Holders(s.pc, n)|);
    WorkersNamed(s, stage, n);
    assert Holders(s.pc, n) == {};
  }
}
