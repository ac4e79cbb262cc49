/**
 The dequeue tickets of one producer's sub-queue.

 Consumers take tickets optimistically from `dequeueOptimisticCount`, give back the
 ones that turn out to be too many through `dequeueOvercommit`, and only then claim
 indices from `headIndex`. Any number of threads run `dequeue` and `dequeue_bulk`
 against one enqueuing thread; every step performs one access to a shared counter.
 The counters are unbounded here; the last part says exactly when the machine words of
 the source follow the same steps.
 */
module Tickets {

  import opened ModularCounters

  type Thread = nat

  datatype Request = One | Bulk(max: nat)

  datatype Pc =
    | Idle
    | LoadOvercommit(req: Request, tail: int)
    | LoadOptimistic(req: Request, tail: int, over: int)
    | TakeTickets(req: Request, over: int, desired: nat)
    | LoadTail(req: Request, over: int, desired: nat, mine: int)
    | ReturnExtra(actual: nat, extra: nat)
    | ReturnAll(desired: nat)
    | ClaimHead(actual: nat)
    | Claimed(first: int, count: nat)

  /** A claimed range of indices; `claims` records all of them in the order they were made. */
  datatype Claim = Claim(first: int, count: nat)

  datatype State = State(tail: int, head: int, opt: int, over: int, pc: seq<Pc>, claims: seq<Claim>)

  datatype Action = Enqueue(count: nat) | Call(thread: Thread, req: Request) | Continue(thread: Thread)

  predicate Enabled(s: State, a: Action)
  {
    match a
    case Enqueue(_) => true
    case Call(t, _) => t < |s.pc| && s.pc[t] == Idle
    case Continue(t) => t < |s.pc| && s.pc[t] != Idle
  }

  function Min(a: int, b: int): int
  {
    if a < b then a else b
  }

  /** The number of tickets to ask for: what seems to be available, up to the caller's limit. */
  function Desired(req: Request, available: int): nat
    requires available > 0
  {
    match req
    case One => 1
    case Bulk(max) => Min(available, max)
  }

  /** How many of its tickets a thread may use, given the tail it sees. */
  function Actual(desired: nat, available: int): nat
    requires available > 0
  {
    Min(desired, available)
  }

  function Step(s: State, t: Thread): State
    requires t < |s.pc| && s.pc[t] != Idle
  {
    match s.pc[t]
    case LoadOvercommit(req, tail) => s.(pc := s.pc[t := LoadOptimistic(req, tail, s.over)])
    case LoadOptimistic(req, tail, over) =>
      var available := tail - (s.opt - over);
      s.(pc := s.pc[t := if available > 0 then TakeTickets(req, over, Desired(req, available)) else Idle])
    case TakeTickets(req, over, desired) =>
      s.(opt := s.opt + desired, pc := s.pc[t := LoadTail(req, over, desired, s.opt)])
    case LoadTail(_, over, desired, mine) =>
      var available := s.tail - (mine - over);
      s.(pc := s.pc[t :=
           if available > 0 then
             var actual := Actual(desired, available);
             if actual < desired then ReturnExtra(actual, desired - actual) else ClaimHead(actual)
           else ReturnAll(desired)])
    case ReturnExtra(actual, extra) => s.(over := s.over + extra, pc := s.pc[t := ClaimHead(actual)])
    case ReturnAll(desired) => s.(over := s.over + desired, pc := s.pc[t := Idle])
    case ClaimHead(actual) =>
      s.(head := s.head + actual, pc := s.pc[t := Claimed(s.head, actual)],
          claims := s.claims + [Claim(s.head, actual)])
    case Claimed(_, _) => s.(pc := s.pc[t := Idle])
  }

  function Next(s: State, a: Action): State
    requires Enabled(s, a)
  {
    match a
    case Enqueue(n) => s.(tail := s.tail + n)
    case Call(t, req) => s.(pc := s.pc[t := LoadOvercommit(req, s.tail)])
    case Continue(t) => Step(s, t)
  }

  // ---------------------------------------------------------------------
  // Sums over all threads
  // ---------------------------------------------------------------------

  function Sum(pc: seq<Pc>, f: Pc -> nat): nat
  {
    if |pc| == 0 then 0 else Sum(pc[..|pc| - 1], f) + f(pc[|pc| - 1])
  }

  lemma {:induction false} SumUpdate(pc: seq<Pc>, t: nat, p: Pc, f: Pc -> nat)
    requires t < |pc|
    ensures Sum(pc[t := p], f) == Sum(pc, f) - f(pc[t]) + f(p)
  {
    var n := |pc| - 1;
    if t == n {
      assert pc[t := p][..n] == pc[..n];
    } else {
      assert pc[t := p][..n] == pc[..n][t := p];
      SumUpdate(pc[..n], t, p, f);
    }
  }

  lemma {:induction false} SumMonotone(pc: seq<Pc>, f: Pc -> nat, g: Pc -> nat)
    requires forall p :: f(p) <= g(p)
    ensures Sum(pc, f) <= Sum(pc, g)
  {
    if |pc| > 0 {
      SumMonotone(pc[..|pc| - 1], f, g);
    }
  }

  lemma {:induction false} SumZero(pc: seq<Pc>, f: Pc -> nat)
    requires forall t :: 0 <= t < |pc| ==> f(pc[t]) == 0
    ensures Sum(pc, f) == 0
  {
    if |pc| > 0 {
      SumZero(pc[..|pc| - 1], f);
    }
  }

  /** Tickets taken and neither claimed nor given back. */
  function Outstanding(): Pc -> nat
  {
    (p: Pc) =>
      match p
      case LoadTail(_, _, desired, _) => desired
      case ReturnExtra(actual, extra) => actual + extra
      case ReturnAll(desired) => desired
      case ClaimHead(actual) => actual
      case _ => 0
  }

  /** Elements a thread has decided to claim but not yet claimed. */
  function Granted(): Pc -> nat
  {
    (p: Pc) => if p.ReturnExtra? || p.ClaimHead? then p.actual else 0
  }

  /** Undecided tickets that end at or before ticket number x. */
  function Undecided(x: int): Pc -> nat
  {
    (p: Pc) => if p.LoadTail? && p.mine + p.desired <= x then p.desired else 0
  }

  // ---------------------------------------------------------------------
  // The invariant
  // ---------------------------------------------------------------------

  /** Claimed and granted elements together. */
  function Promised(s: State): int
  {
    s.head + Sum(s.pc, Granted())
  }

  /** All tickets ending at or before x could still be granted without passing the bound. */
  predicate Fits(s: State, x: int, bound: int)
  {
    Promised(s) + Sum(s.pc, Undecided(x)) <= bound
  }

  /**
   An undecided thread will stay within the tail: either no later ticket has been granted, and
   everything before it fits below its own first index, or a later one has, and then everything
   up to and including it fits below the tail already.
   */
  predicate TicketOk(s: State, p: Pc)
  {
    p.LoadTail? ==>
      && p.over <= p.mine
      && p.mine + p.desired <= s.opt
      && (Fits(s, p.mine, p.mine - p.over) || Fits(s, p.mine + p.desired, s.tail))
  }

  predicate OverRead(s: State, p: Pc)
  {
    && (p.LoadOptimistic? || p.TakeTickets? ==> p.over <= s.over)
    && ((p.TakeTickets? || p.LoadTail?) && p.req.One? ==> p.desired == 1)
  }

  /** Ticket ranges of different threads do not overlap. */
  predicate Apart(p: Pc, q: Pc)
  {
    p.LoadTail? && q.LoadTail? ==> p.mine + p.desired <= q.mine || q.mine + q.desired <= p.mine
  }

  /** The claims follow each other without gap or overlap, from index 0 up to the head. */
  predicate Contiguous(claims: seq<Claim>, head: int)
  {
    if |claims| == 0 then head == 0
    else
      var last := claims[|claims| - 1];
      last.first + last.count == head && Contiguous(claims[..|claims| - 1], last.first)
  }

  ghost predicate Inv(s: State)
  {
    && s.opt - s.over - s.head == Sum(s.pc, Outstanding())
    && 0 <= s.head
    && Promised(s) <= s.tail
    && (forall t :: 0 <= t < |s.pc| ==> TicketOk(s, s.pc[t]) && OverRead(s, s.pc[t]))
    && (forall t, u :: 0 <= t < u < |s.pc| ==> Apart(s.pc[t], s.pc[u]))
    && Contiguous(s.claims, s.head)
  }

  /** Counters start at zero and no thread is inside an operation. */
  predicate Init(s: State)
  {
    && s.tail == s.head == s.opt == s.over == 0
    && s.claims == []
    && forall t :: 0 <= t < |s.pc| ==> s.pc[t] == Idle
  }

  lemma InitHasInv(s: State)
    requires Init(s)
    ensures Inv(s)
  {
    SumZero(s.pc, Outstanding());
    SumZero(s.pc, Granted());
  }

  // ---------------------------------------------------------------------
  // Every step keeps the invariant
  // ---------------------------------------------------------------------

  /** How a change of one program counter moves the three sums. */
  lemma SumsUpdate(pc: seq<Pc>, t: Thread, p: Pc, x: int)
    requires t < |pc|
    ensures Sum(pc[t := p], Outstanding()) == Sum(pc, Outstanding()) - Outstanding()(pc[t]) + Outstanding()(p)
    ensures Sum(pc[t := p], Granted()) == Sum(pc, Granted()) - Granted()(pc[t]) + Granted()(p)
    ensures Sum(pc[t := p], Undecided(x)) == Sum(pc, Undecided(x)) - Undecided(x)(pc[t]) + Undecided(x)(p)
  {
    SumUpdate(pc, t, p, Outstanding());
    SumUpdate(pc, t, p, Granted());
    SumUpdate(pc, t, p, Undecided(x));
  }

  /** The tickets of thread t, if undecided, are part of every sum that reaches their end. */
  lemma OwnTicketsIncluded(pc: seq<Pc>, t: Thread, x: int, y: int)
    requires t < |pc| && pc[t].LoadTail? && x <= pc[t].mine && pc[t].mine + pc[t].desired <= y
    ensures Sum(pc, Undecided(x)) + pc[t].desired <= Sum(pc, Undecided(y))
  {
    SumUpdate(pc, t, Idle, Undecided(x));
    SumUpdate(pc, t, Idle, Undecided(y));
    SumMonotone(pc[t := Idle], Undecided(x), Undecided(y));
  }

  /** Undecided tickets are outstanding, granted ones too. */
  lemma {:induction false} OutstandingCovers(pc: seq<Pc>, x: int)
    ensures Sum(pc, Undecided(x)) + Sum(pc, Granted()) <= Sum(pc, Outstanding())
  {
    if |pc| > 0 {
      OutstandingCovers(pc[..|pc| - 1], x);
    }
  }

  /** Steps that neither take nor decide tickets. */
  predicate Quiet(p: Pc)
  {
    !p.TakeTickets? && !p.LoadTail?
  }

  /** What a quiet step does to the counters and to the acting thread. */
  lemma QuietStep(s: State, t: Thread)
    requires Inv(s) && t < |s.pc| && s.pc[t] != Idle && Quiet(s.pc[t])
    ensures var s', p := Step(s, t), s.pc[t];
      && s'.pc == s.pc[t := s'.pc[t]] && !s'.pc[t].LoadTail?
      && Promised(s') == Promised(s) && s'.tail == s.tail && s'.opt == s.opt && s'.over >= s.over && s'.head >= s.head
      && s'.opt - s'.over - s'.head == Sum(s'.pc, Outstanding())
      && OverRead(s', s'.pc[t])
  {
    SumsUpdate(s.pc, t, Step(s, t).pc[t], 0);
    assert OverRead(s, s.pc[t]);
  }

  lemma TicketKept(s: State, s': State, t: Thread, p: Pc)
    requires t < |s.pc| == |s'.pc| && !s.pc[t].LoadTail? && s'.pc == s.pc[t := s'.pc[t]] && !s'.pc[t].LoadTail?
    requires Promised(s') == Promised(s) && s'.tail >= s.tail && s'.opt >= s.opt
    requires TicketOk(s, p)
    ensures TicketOk(s', p)
  {
    if p.LoadTail? {
      SumsUpdate(s.pc, t, s'.pc[t], p.mine);
      SumsUpdate(s.pc, t, s'.pc[t], p.mine + p.desired);
    }
  }

  lemma QuietStepKeepsInv(s: State, t: Thread)
    requires Inv(s) && t < |s.pc| && s.pc[t] != Idle && Quiet(s.pc[t])
    ensures Inv(Step(s, t))
  {
    var s' := Step(s, t);
    QuietStep(s, t);
    forall u | 0 <= u < |s'.pc| ensures TicketOk(s', s'.pc[u]) && OverRead(s', s'.pc[u]) {
      assert TicketOk(s, s.pc[u]) && OverRead(s, s.pc[u]);
      if u != t {
        TicketKept(s, s', t, s.pc[u]);
      }
    }
    forall u, v | 0 <= u < v < |s'.pc| ensures Apart(s'.pc[u], s'.pc[v]) {
      assert Apart(s.pc[u], s.pc[v]);
    }
    if s.pc[t].ClaimHead? {
      assert s'.claims[..|s'.claims| - 1] == s.claims;
    }
  }

  /** The new ticket comes after all others, so what they may still claim fits before it. */
  lemma NewTicketOk(s: State, t: Thread)
    requires Inv(s) && t < |s.pc| && s.pc[t].TakeTickets?
    ensures TicketOk(Step(s, t), Step(s, t).pc[t])
  {
    var s', p' := Step(s, t), Step(s, t).pc[t];
    assert OverRead(s, s.pc[t]);
    OutstandingCovers(s.pc, s.opt);
    OutstandingCovers(s.pc, p'.mine);
    SumsUpdate(s.pc, t, p', p'.mine);
  }

  /** Tickets of others are not touched by a ticket that begins where they end. */
  lemma OtherTicketUntouched(s: State, t: Thread, u: Thread)
    requires Inv(s) && t < |s.pc| && s.pc[t].TakeTickets? && u < |s.pc| && u != t
    ensures TicketOk(Step(s, t), s.pc[u])
  {
    var s', q := Step(s, t), s.pc[u];
    assert TicketOk(s, q);
    if q.LoadTail? {
      SumsUpdate(s.pc, t, s'.pc[t], q.mine);
      SumsUpdate(s.pc, t, s'.pc[t], q.mine + q.desired);
    }
  }

  lemma TakeTicketsKeepsInv(s: State, t: Thread)
    requires Inv(s) && t < |s.pc| && s.pc[t].TakeTickets?
    ensures Inv(Step(s, t))
  {
    hide Sum, Contiguous;
    var s' := Step(s, t);
    SumsUpdate(s.pc, t, s'.pc[t], 0);
    NewTicketOk(s, t);
    forall u | 0 <= u < |s'.pc| ensures TicketOk(s', s'.pc[u]) && OverRead(s', s'.pc[u]) {
      if u != t {
        OtherTicketUntouched(s, t, u);
      }
      assert OverRead(s, s.pc[u]);
    }
    forall u, v | 0 <= u < v < |s'.pc| ensures Apart(s'.pc[u], s'.pc[v]) {
      assert Apart(s.pc[u], s.pc[v]);
      assert TicketOk(s, s.pc[u]) && TicketOk(s, s.pc[v]);
    }
  }

  /** A thread that finds elements available keeps the total of promises below the tail. */
  lemma GrantFits(s: State, t: Thread, actual: nat)
    requires Inv(s) && t < |s.pc| && s.pc[t].LoadTail?
    requires actual <= s.pc[t].desired && s.pc[t].mine - s.pc[t].over + actual <= s.tail
    ensures Promised(s) + Sum(s.pc, Undecided(s.pc[t].mine)) + actual <= s.tail
  {
    var p := s.pc[t];
    assert TicketOk(s, p);
    OwnTicketsIncluded(s.pc, t, p.mine, p.mine + p.desired);
  }

  lemma DecideKeepsInv(s: State, t: Thread)
    requires Inv(s) && t < |s.pc| && s.pc[t].LoadTail?
    ensures Inv(Step(s, t))
  {
    var s' := Step(s, t);
    var p, p' := s.pc[t], s'.pc[t];
    var actual := Granted()(p');
    SumsUpdate(s.pc, t, p', 0);
    assert TicketOk(s, p);
    assert Promised(s') == Promised(s) + actual;
    if actual > 0 {
      GrantFits(s, t, actual);
    }
    forall u | 0 <= u < |s'.pc| ensures TicketOk(s', s'.pc[u]) && OverRead(s', s'.pc[u]) {
      assert OverRead(s, s.pc[u]);
      if u != t && s.pc[u].LoadTail? {
        OtherTicketKept(s, t, u, actual);
      }
    }
    forall u, v | 0 <= u < v < |s'.pc| ensures Apart(s'.pc[u], s'.pc[v]) {
      assert Apart(s.pc[u], s.pc[v]);
    }
  }

  lemma OtherTicketKept(s: State, t: Thread, u: Thread, actual: nat)
    requires Inv(s) && t < |s.pc| && s.pc[t].LoadTail? && u < |s.pc| && u != t && s.pc[u].LoadTail?
    requires actual == Granted()(Step(s, t).pc[t])
    ensures TicketOk(Step(s, t), s.pc[u])
  {
    hide Sum, Outstanding, Contiguous;
    var s' := Step(s, t);
    var p, q := s.pc[t], s.pc[u];
    var e := q.mine + q.desired;
    SumsUpdate(s.pc, t, s'.pc[t], q.mine);
    SumsUpdate(s.pc, t, s'.pc[t], e);
    assert TicketOk(s, p) && TicketOk(s, q);
    assert actual <= p.desired;
    assert Apart(s.pc[if t < u then t else u], s.pc[if t < u then u else t]);
    if p.mine + p.desired > q.mine && actual > 0 {
      GrantFits(s, t, actual);
      SumMonotone(s.pc, Undecided(e), Undecided(p.mine));
      assert Fits(s', e, s'.tail);
    }
  }

  lemma StepKeepsInv(s: State, a: Action)
    requires Inv(s) && Enabled(s, a)
    ensures Inv(Next(s, a))
  {
    match a
    case Enqueue(n) =>
      var s' := Next(s, a);
      forall u | 0 <= u < |s'.pc| ensures TicketOk(s', s'.pc[u]) && OverRead(s', s'.pc[u]) {
        assert TicketOk(s, s.pc[u]) && OverRead(s, s.pc[u]);
      }
    case Call(t, req) =>
      var s' := Next(s, a);
      SumsUpdate(s.pc, t, s'.pc[t], 0);
      forall u | 0 <= u < |s'.pc| ensures TicketOk(s', s'.pc[u]) && OverRead(s', s'.pc[u]) {
        assert TicketOk(s, s.pc[u]) && OverRead(s, s.pc[u]);
        TicketKept(s, s', t, s.pc[u]);
      }
      forall u, v | 0 <= u < v < |s'.pc| ensures Apart(s'.pc[u], s'.pc[v]) {
        assert Apart(s.pc[u], s.pc[v]);
      }
    case Continue(t) =>
      if s.pc[t].TakeTickets? {
        TakeTicketsKeepsInv(s, t);
      } else if s.pc[t].LoadTail? {
        DecideKeepsInv(s, t);
      } else {
        QuietStepKeepsInv(s, t);
      }
  }

  // ---------------------------------------------------------------------
  // Whole runs
  // ---------------------------------------------------------------------

  ghost predicate IsRun(states: seq<State>, actions: seq<Action>)
  {
    && |states| == |actions| + 1
    && forall i :: 0 <= i < |actions| ==> Enabled(states[i], actions[i]) && states[i + 1] == Next(states[i], actions[i])
  }

  lemma {:induction false} RunKeepsInv(states: seq<State>, actions: seq<Action>, i: nat)
    requires IsRun(states, actions) && Init(states[0]) && i < |states|
    ensures Inv(states[i])
  {
    if i == 0 {
      InitHasInv(states[0]);
    } else {
      RunKeepsInv(states, actions, i - 1);
      StepKeepsInv(states[i - 1], actions[i - 1]);
    }
  }

  /** What a thread has decided to claim is still below the tail. */
  lemma GrantedFits(s: State, t: Thread)
    requires Inv(s) && t < |s.pc| && s.pc[t].ClaimHead?
    ensures s.head + s.pc[t].actual <= s.tail
  {
    SumUpdate(s.pc, t, Idle, Granted());
  }

  /** The head never passes the tail, not even counting what threads have decided to claim. */
  lemma HeadNeverPassesTail(states: seq<State>, actions: seq<Action>, i: nat)
    requires IsRun(states, actions) && Init(states[0]) && i < |states|
    ensures 0 <= states[i].head <= states[i].tail
    ensures forall t :: 0 <= t < |states[i].pc| && states[i].pc[t].ClaimHead? ==>
              states[i].head + states[i].pc[t].actual <= states[i].tail
  {
    RunKeepsInv(states, actions, i);
    var s := states[i];
    forall t | 0 <= t < |s.pc| && s.pc[t].ClaimHead? ensures s.head + s.pc[t].actual <= s.tail {
      GrantedFits(s, t);
    }
  }

  /** The claims of a contiguous history are pairwise disjoint, in order, and cover [0, head). */
  lemma {:induction false} ContiguousCovers(claims: seq<Claim>, head: int, x: int) returns (k: nat)
    requires Contiguous(claims, head) && 0 <= x < head
    ensures k < |claims| && claims[k].first <= x < claims[k].first + claims[k].count
    ensures forall j :: 0 <= j < k ==> claims[j].first + claims[j].count <= x
    ensures forall j :: k < j < |claims| ==> x < claims[j].first
  {
    var n := |claims| - 1;
    if claims[n].first <= x {
      k := n;
      ContiguousBelow(claims[..n], claims[n].first);
    } else {
      k := ContiguousCovers(claims[..n], claims[n].first, x);
      forall j | k < j < |claims| ensures x < claims[j].first {
        if j < n { assert claims[..n][j] == claims[j]; }
      }
    }
  }

  lemma {:induction false} ContiguousBelow(claims: seq<Claim>, head: int)
    requires Contiguous(claims, head)
    ensures head >= 0
    ensures forall j :: 0 <= j < |claims| ==> claims[j].first + claims[j].count <= head
  {
    if |claims| > 0 {
      var n := |claims| - 1;
      ContiguousBelow(claims[..n], claims[n].first);
      forall j | 0 <= j < |claims| ensures claims[j].first + claims[j].count <= head {
        if j < n { assert claims[..n][j] == claims[j]; }
      }
    }
  }

  /** Every index below the head was claimed exactly once, and every claim lies below the tail. */
  lemma ClaimedExactlyOnce(states: seq<State>, actions: seq<Action>, i: nat, x: int) returns (k: nat)
    requires IsRun(states, actions) && Init(states[0]) && i < |states| && 0 <= x < states[i].head
    ensures var claims := states[i].claims;
      && k < |claims|
      && (forall j :: 0 <= j < |claims| ==> (claims[j].first <= x < claims[j].first + claims[j].count <==> j == k))
      && (forall j :: 0 <= j < |claims| ==> claims[j].first + claims[j].count <= states[i].tail)
  {
    RunKeepsInv(states, actions, i);
    HeadNeverPassesTail(states, actions, i);
    k := ContiguousCovers(states[i].claims, states[i].head, x);
    ContiguousBelow(states[i].claims, states[i].head);
  }

  /** Tickets taken, minus tickets given back, minus elements claimed, are the tickets in flight. */
  lemma TicketsBalance(states: seq<State>, actions: seq<Action>, i: nat)
    requires IsRun(states, actions) && Init(states[0]) && i < |states|
    ensures states[i].opt - states[i].over - states[i].head == Sum(states[i].pc, Outstanding())
    ensures (forall t :: 0 <= t < |states[i].pc| ==> states[i].pc[t] == Idle) ==>
              states[i].opt - states[i].over == states[i].head
  {
    RunKeepsInv(states, actions, i);
    if forall t :: 0 <= t < |states[i].pc| ==> states[i].pc[t] == Idle {
      SumZero(states[i].pc, Outstanding());
    }
  }

  /** The assertion at lines 1898 and 2170, on the unbounded counters: overcommit <= myDequeueCount. */
  lemma OvercommitBelowTicket(states: seq<State>, actions: seq<Action>, i: nat, t: Thread)
    requires IsRun(states, actions) && Init(states[0]) && i < |states|
    requires t < |states[i].pc| && states[i].pc[t].LoadTail?
    ensures states[i].pc[t].over <= states[i].pc[t].mine
  {
    RunKeepsInv(states, actions, i);
    assert TicketOk(states[i], states[i].pc[t]);
  }

  // ---------------------------------------------------------------------
  // Machine words
  // ---------------------------------------------------------------------

  /** The comparison of `dequeue`, and the one of `dequeue_bulk`, which subtracts first. */
  predicate SeemsAvailable(w: nat, req: Request, used: nat, tail: nat)
    requires w >= 1
  {
    match req
    case One => CircularLessThan(w, used, tail)
    case Bulk(_) => CircularLessThan(w, 0, (tail - used) % Pow2(w))
  }

  /** One step on words: all arithmetic on counters wraps, all comparisons are circular. */
  function WordStep(w: nat, s: State, t: Thread): State
    requires w >= 1 && t < |s.pc| && s.pc[t] != Idle
  {
    var m := Pow2(w);
    match s.pc[t]
    case LoadOvercommit(req, tail) => s.(pc := s.pc[t := LoadOptimistic(req, tail, s.over)])
    case LoadOptimistic(req, tail, over) =>
      var used := (s.opt - over) % m;
      var available := (tail as int - used) % m;
      s.(pc := s.pc[t := if SeemsAvailable(w, req, used, tail % m) then
                           TakeTickets(req, over, if req.One? then 1 else Min(available, req.max)) else Idle])
    case TakeTickets(req, over, desired) =>
      s.(opt := (s.opt + desired) % m, pc := s.pc[t := LoadTail(req, over, desired, s.opt)])
    case LoadTail(req, over, desired, mine) =>
      var used := (mine - over) % m;
      var available := (s.tail - used) % m;
      s.(pc := s.pc[t :=
           if SeemsAvailable(w, req, used, s.tail % m) then
             var actual := if req.One? then 1 else Min(desired, available);
             if actual < desired then ReturnExtra(actual, desired - actual) else ClaimHead(actual)
           else ReturnAll(desired)])
    case ReturnExtra(actual, extra) => s.(over := (s.over + extra) % m, pc := s.pc[t := ClaimHead(actual)])
    case ReturnAll(desired) => s.(over := (s.over + desired) % m, pc := s.pc[t := Idle])
    case ClaimHead(actual) =>
      s.(head := (s.head + actual) % m, pc := s.pc[t := Claimed(s.head, actual)],
          claims := s.claims + [Claim(s.head, actual)])
    case Claimed(_, _) => s.(pc := s.pc[t := Idle])
  }

  function WordNext(w: nat, s: State, a: Action): State
    requires w >= 1 && Enabled(s, a)
  {
    match a
    case Enqueue(n) => s.(tail := (s.tail + n) % Pow2(w))
    case Call(t, req) => s.(pc := s.pc[t := LoadOvercommit(req, s.tail)])
    case Continue(t) => WordStep(w, s, t)
  }

  /** The words that stand for a program counter, a claim and a state. */
  function WordPc(w: nat, p: Pc): Pc
  {
    match p
    case LoadOvercommit(req, tail) => LoadOvercommit(req, Word(w, tail))
    case LoadOptimistic(req, tail, over) => LoadOptimistic(req, Word(w, tail), Word(w, over))
    case TakeTickets(req, over, desired) => TakeTickets(req, Word(w, over), desired)
    case LoadTail(req, over, desired, mine) => LoadTail(req, Word(w, over), desired, Word(w, mine))
    case Claimed(first, count) => Claimed(Word(w, first), count)
    case _ => p
  }

  function WordState(w: nat, s: State): State
  {
    State(Word(w, s.tail), Word(w, s.head), Word(w, s.opt), Word(w, s.over),
          seq(|s.pc|, i requires 0 <= i < |s.pc| => WordPc(w, s.pc[i])),
          seq(|s.claims|, i requires 0 <= i < |s.claims| => Claim(Word(w, s.claims[i].first), s.claims[i].count)))
  }

  /** The counters compared by this step are less than half the range apart. */
  predicate ComparesInWindow(w: nat, s: State, a: Action)
    requires w >= 1 && Enabled(s, a)
  {
    a.Continue? ==>
      match s.pc[a.thread]
      case LoadOptimistic(_, tail, over) => InWindow(w, s.opt - over, tail)
      case LoadTail(req, over, desired, mine) => InWindow(w, mine - over, s.tail)
      case _ => true
  }

  /** The words see the number of available elements modulo the range, and take the upper half for none. */
  lemma SeemsExactly(w: nat, req: Request, opt: int, over: int, tail: int)
    requires w >= 1
    ensures var used, seen := (Word(w, opt) - Word(w, over)) % Pow2(w), Word(w, tail - (opt - over));
      && (SeemsAvailable(w, req, used, Word(w, tail)) <==> 0 < seen < Pow2(w - 1))
      && (Word(w, tail) - used) % Pow2(w) == seen
    ensures Word(w, tail) % Pow2(w) == Word(w, tail)
  {
    hide Pow2, Word, SeemsAvailable;
    WordOfWord(w, tail);
    WordSub(w, opt, over);
    WordSub(w, tail, opt - over);
    SeemsAt(w, req, opt - over, tail);
  }

  lemma WordOfWord(w: nat, x: int)
    ensures Word(w, x) % Pow2(w) == Word(w, x)
  {
    ModUnique(Word(w, x), Pow2(w), 0, Word(w, x));
  }

  lemma SeemsAt(w: nat, req: Request, used: int, tail: int)
    requires w >= 1
    ensures SeemsAvailable(w, req, Word(w, used), Word(w, tail)) <==> 0 < Word(w, tail - used) < Pow2(w - 1)
  {
    hide Pow2, Word, CircularLessThan;
    CircularLessThanExactly(w, used, tail);
    ComparisonsAgree(w, Word(w, used), Word(w, tail));
  }

  /**
   When the words decide as the counters do about so many available elements and a limit. If there are
   none, the difference must not show up in the lower half of the range; if there are some, it must, and
   be no less than the limit where it has lost a multiple of the range.
   */
  predicate Agrees(w: nat, available: int, limit: nat)
    requires w >= 1
  {
    var seen := Word(w, available);
    if available > 0 then 0 < seen < Pow2(w - 1) && (available < Pow2(w) || limit <= seen)
    else seen == 0 || seen >= Pow2(w - 1)
  }

  function Limit(req: Request): nat
  {
    match req
    case One => 1
    case Bulk(max) => max
  }

  /** The comparison that this step makes, if any, comes out on words as on the counters. */
  predicate StepAgrees(w: nat, s: State, a: Action)
    requires w >= 1 && Enabled(s, a)
  {
    a.Continue? ==>
      match s.pc[a.thread]
      case LoadOptimistic(req, tail, over) => Agrees(w, tail - (s.opt - over), Limit(req))
      case LoadTail(req, over, desired, mine) => Agrees(w, s.tail - (mine - over), desired)
      case _ => true
  }

  lemma AgreesMeans(w: nat, available: int, limit: nat)
    requires w >= 1
    ensures var seen := Word(w, available);
      && (Agrees(w, available, limit) <==>
            && (0 < seen < Pow2(w - 1) <==> available > 0)
            && (available > 0 ==> Min(seen, limit) == Min(available, limit)))
  {
    if 0 < available < Pow2(w) {
      ModUnique(available, Pow2(w), 0, available);
    }
  }

  /** Comparisons in the window come out right. */
  lemma WindowAgrees(w: nat, s: State, a: Action)
    requires w >= 1 && Enabled(s, a) && ComparesInWindow(w, s, a)
    ensures StepAgrees(w, s, a)
  {
    if a.Continue? {
      match s.pc[a.thread]
      case LoadOptimistic(req, tail, over) => DifferenceInWindow(w, tail - (s.opt - over), Limit(req));
      case LoadTail(req, over, desired, mine) => DifferenceInWindow(w, s.tail - (mine - over), desired);
      case _ =>
    }
  }

  lemma DifferenceInWindow(w: nat, available: int, limit: nat)
    requires w >= 1 && -(Pow2(w - 1) as int) <= available < Pow2(w - 1)
    ensures Agrees(w, available, limit)
  {
    assert Pow2(w) == 2 * Pow2(w - 1);
    DifferenceSeen(w, available);
  }

  /** A comparing step on words is the image of the step on counters exactly when the comparison agrees. */
  lemma WordStepSame(w: nat, s: State, t: Thread)
    requires w >= 1 && t < |s.pc| && s.pc[t] != Idle && OverRead(s, s.pc[t])
    requires s.pc[t].LoadOptimistic? || s.pc[t].LoadTail?
    ensures WordPc(w, Step(s, t).pc[t]) == WordStep(w, WordState(w, s), t).pc[t] <==> StepAgrees(w, s, Continue(t))
  {
    hide Word, Pow2, SeemsAvailable, Agrees;
    match s.pc[t]
    case LoadOptimistic(req, tail, over) =>
      SeemsExactly(w, req, s.opt, over, tail);
      AgreesMeans(w, tail - (s.opt - over), Limit(req));
    case LoadTail(req, over, desired, mine) =>
      SeemsExactly(w, req, mine, over, s.tail);
      AgreesMeans(w, s.tail - (mine - over), desired);
  }

  /** The step the source takes on words is the step on counters exactly when its comparison agrees. */
  lemma WordsRefine(w: nat, s: State, a: Action)
    requires w >= 1 && Enabled(s, a)
    requires a.Continue? ==> OverRead(s, s.pc[a.thread])
    ensures Enabled(WordState(w, s), a)
    ensures WordState(w, Next(s, a)) == WordNext(w, WordState(w, s), a) <==> StepAgrees(w, s, a)
  {
    var s', ws := Next(s, a), WordState(w, s);
    var ws' := WordNext(w, ws, a);
    match a
    case Enqueue(n) =>
      WordAdd(w, s.tail, n);
    case Call(t, req) =>
      assert WordState(w, s').pc == ws'.pc;
    case Continue(t) =>
      var p := s.pc[t];
      assert WordState(w, s').pc[t] == WordPc(w, s'.pc[t]);
      if p.LoadOptimistic? || p.LoadTail? {
        WordStepSame(w, s, t);
      } else if p.TakeTickets? {
        WordAdd(w, s.opt, p.desired);
      } else if p.ReturnExtra? {
        WordAdd(w, s.over, p.extra);
      } else if p.ReturnAll? {
        WordAdd(w, s.over, p.desired);
      } else if p.ClaimHead? {
        WordAdd(w, s.head, p.actual);
      }
      if StepAgrees(w, s, a) {
        assert WordState(w, s').pc == ws'.pc;
      }
  }

  /** The two forms of the availability test, before and after subtracting, are the same. */
  lemma ComparisonsAgree(w: nat, used: nat, tail: nat)
    requires w >= 1 && used < Pow2(w) && tail < Pow2(w)
    ensures CircularLessThan(w, used, tail) <==> CircularLessThan(w, 0, (tail - used) % Pow2(w))
  {
    WordSub(w, 0, tail - used);
    ModUnique(0, Pow2(w), 0, 0);
  }

  ghost predicate IsWordRun(w: nat, words: seq<State>, actions: seq<Action>)
    requires w >= 1
  {
    && |words| == |actions| + 1
    && forall j :: 0 <= j < |actions| ==>
         Enabled(words[j], actions[j]) && words[j + 1] == WordNext(w, words[j], actions[j])
  }

  /**
   A run of the word machine is, up to any point, the image of the unbounded run with the same actions
   exactly when every comparison made up to there agrees.
   */
  lemma {:induction false} WordRunRefines(w: nat, states: seq<State>, words: seq<State>, actions: seq<Action>, n: nat)
    requires w >= 1 && IsRun(states, actions) && Init(states[0]) && |words| == |states| && n < |states|
    requires words[0] == WordState(w, states[0]) && IsWordRun(w, words, actions)
    ensures (forall j :: 0 <= j <= n ==> words[j] == WordState(w, states[j])) <==>
              forall j :: 0 <= j < n ==> StepAgrees(w, states[j], actions[j])
  {
    hide WordState, StepAgrees, WordNext, Next;
    if n > 0 {
      WordRunRefines(w, states, words, actions, n - 1);
      RunKeepsInv(states, actions, n - 1);
      var s, a := states[n - 1], actions[n - 1];
      assert Enabled(s, a) && Next(s, a) == states[n];
      WordsRefine(w, s, a);
      if words[n - 1] == WordState(w, s) {
        assert words[n] == WordNext(w, words[n - 1], a);
      }
    }
  }

  /**
   The source checks overcommit <= myDequeueCount on the words themselves. Whatever the counters,
   the words pass exactly when adding the wrapped difference to the first word does not wrap.
   */
  lemma OvercommitAssertOnWords(w: nat, over: int, mine: int)
    ensures Word(w, over) <= Word(w, mine) <==> Word(w, over) + Word(w, mine - over) < Pow2(w)
  {
    SumOfRemainders(over, mine - over, Pow2(w));
    RemainderOfSum(Word(w, over), Word(w, mine - over), Pow2(w));
  }

  lemma SumOfRemainders(x: int, y: int, m: int)
    requires m > 0
    ensures (x % m + y % m) % m == (x + y) % m
  {
    Decompose(x, m);
    Decompose(y, m);
    MulSub(x / m, -(y / m), m);
    ModShift(x % m + y % m, x / m + y / m, m);
  }

  lemma RemainderOfSum(a: nat, d: nat, m: nat)
    requires a < m && d < m
    ensures (a + d) % m == if a + d < m then a + d else a + d - m
  {
    if a + d < m {
      ModUnique(a + d, m, 0, a + d);
    } else {
      ModUnique(a + d, m, 1, a + d - m);
    }
  }

  /** So it is for a thread that has just taken a ticket in any run. */
  lemma OvercommitAssertInRun(w: nat, states: seq<State>, actions: seq<Action>, i: nat, t: Thread)
    requires IsRun(states, actions) && Init(states[0]) && i < |states|
    requires t < |states[i].pc| && states[i].pc[t].LoadTail?
    ensures var p, q := states[i].pc[t], WordPc(w, states[i].pc[t]);
      && p.over <= p.mine
      && (q.over <= q.mine <==> q.over + Word(w, p.mine - p.over) < Pow2(w))
  {
    OvercommitBelowTicket(states, actions, i, t);
    OvercommitAssertOnWords(w, states[i].pc[t].over, states[i].pc[t].mine);
  }

  // ---------------------------------------------------------------------
  // size_approx
  // ---------------------------------------------------------------------

  lemma {:induction false} CountersGrow(states: seq<State>, actions: seq<Action>, i: nat, j: nat)
    requires IsRun(states, actions) && i <= j < |states|
    ensures states[i].tail <= states[j].tail && states[i].head <= states[j].head
    decreases j - i
  {
    if i < j {
      CountersGrow(states, actions, i, j - 1);
      assert states[j] == Next(states[j - 1], actions[j - 1]);
    }
  }

  /**
   The tail is read in one state and the head in a later one. Less than half the range apart, the answer is never
   more than the number of elements at either time, and exact when nothing happens in between.
   */
  lemma SizeApproxBetween(w: nat, states: seq<State>, actions: seq<Action>, i: nat, j: nat)
    requires w >= 1 && IsRun(states, actions) && Init(states[0]) && i <= j < |states|
    requires InWindow(w, states[j].head, states[i].tail)
    ensures var size := SizeApprox(w, Word(w, states[j].head), Word(w, states[i].tail));
      && size <= states[i].tail - states[i].head && size <= states[j].tail - states[j].head
      && (states[j].head == states[i].head ==> size == states[i].tail - states[i].head)
      && (states[j].tail == states[i].tail ==> size == states[j].tail - states[j].head)
  {
    CountersGrow(states, actions, i, j);
    HeadNeverPassesTail(states, actions, i);
    HeadNeverPassesTail(states, actions, j);
    SizeApproxCounts(w, states[j].head, states[i].tail);
  }

  // ---------------------------------------------------------------------
  // A run in which the assertion fails on words
  // ---------------------------------------------------------------------

  /** A run from the start with two consumers, all of whose comparisons stay in the window. */
  ghost predicate IsWindowRun(w: nat, states: seq<State>, actions: seq<Action>)
    requires w >= 1
  {
    && IsRun(states, actions) && Init(states[0]) && |states[0].pc| == 2
    && forall i :: 0 <= i < |actions| ==> Enabled(states[i], actions[i]) && ComparesInWindow(w, states[i], actions[i])
  }

  lemma RunOn(w: nat, states: seq<State>, actions: seq<Action>, a: Action, s: State)
      returns (states': seq<State>, actions': seq<Action>)
    requires w >= 1 && IsWindowRun(w, states, actions)
    requires var last := states[|states| - 1];
      Enabled(last, a) && ComparesInWindow(w, last, a) && Next(last, a) == s
    ensures IsWindowRun(w, states', actions') && states'[|states'| - 1] == s
  {
    states', actions' := states + [s], actions + [a];
  }

  /** Nobody is inside an operation, and the queue is empty. */
  function Rest(head: nat, opt: nat, over: nat, claims: seq<Claim>): State
  {
    State(head, head, opt, over, [Idle, Idle], claims)
  }

  /** Two consumers start on the first element. */
  lemma BothStart(w: nat) returns (states: seq<State>, actions: seq<Action>)
    requires w >= 2
    ensures IsWindowRun(w, states, actions)
    ensures var at1 := LoadOptimistic(One, 1, 0); states[|states| - 1] == State(1, 0, 0, 0, [at1, at1], [])
  {
    var at0, at1 := LoadOvercommit(One, 1), LoadOptimistic(One, 1, 0);
    states, actions := [State(0, 0, 0, 0, [Idle, Idle], [])], [];
    states, actions := RunOn(w, states, actions, Enqueue(1), State(1, 0, 0, 0, [Idle, Idle], []));
    states, actions := RunOn(w, states, actions, Call(0, One), State(1, 0, 0, 0, [at0, Idle], []));
    states, actions := RunOn(w, states, actions, Call(1, One), State(1, 0, 0, 0, [at0, at0], []));
    states, actions := RunOn(w, states, actions, Continue(0), State(1, 0, 0, 0, [at1, at0], []));
    states, actions := RunOn(w, states, actions, Continue(1), State(1, 0, 0, 0, [at1, at1], []));
  }

  /** Both see it, and each takes a ticket for it. */
  lemma BothTakeTickets(w: nat) returns (states: seq<State>, actions: seq<Action>)
    requires w >= 2
    ensures IsWindowRun(w, states, actions)
    ensures states[|states| - 1] == State(1, 0, 2, 0, [LoadTail(One, 0, 1, 0), LoadTail(One, 0, 1, 1)], [])
  {
    var at1, take := LoadOptimistic(One, 1, 0), TakeTickets(One, 0, 1);
    states, actions := BothStart(w);
    states, actions := RunOn(w, states, actions, Continue(0), State(1, 0, 0, 0, [take, at1], []));
    states, actions := RunOn(w, states, actions, Continue(1), State(1, 0, 0, 0, [take, take], []));
    states, actions := RunOn(w, states, actions, Continue(0), State(1, 0, 1, 0, [LoadTail(One, 0, 1, 0), take], []));
    states, actions := RunOn(w, states, actions, Continue(1),
                             State(1, 0, 2, 0, [LoadTail(One, 0, 1, 0), LoadTail(One, 0, 1, 1)], []));
  }

  /** The first of them claims the element; the other gives its ticket back. */
  lemma Race(w: nat) returns (states: seq<State>, actions: seq<Action>)
    requires w >= 2
    ensures IsWindowRun(w, states, actions) && states[|states| - 1] == Rest(1, 2, 1, [Claim(0, 1)])
  {
    states, actions := BothTakeTickets(w);
    states, actions := RunOn(w, states, actions, Continue(0),
        State(1, 0, 2, 0, [ClaimHead(1), LoadTail(One, 0, 1, 1)], []));
    states, actions := RunOn(w, states, actions, Continue(1), State(1, 0, 2, 0, [ClaimHead(1), ReturnAll(1)], []));
    states, actions := RunOn(w, states, actions, Continue(1), State(1, 0, 2, 1, [ClaimHead(1), Idle], []));
    states, actions := RunOn(w, states, actions, Continue(0), State(1, 1, 2, 1, [Claimed(0, 1), Idle], [Claim(0, 1)]));
    states, actions := RunOn(w, states, actions, Continue(0), Rest(1, 2, 1, [Claim(0, 1)]));
  }

  /** One element more is enqueued, and the first consumer takes a ticket for it. */
  lemma TakeNext(w: nat, states: seq<State>, actions: seq<Action>, head: nat, cs: seq<Claim>)
      returns (states': seq<State>, actions': seq<Action>)
    requires w >= 2 && IsWindowRun(w, states, actions) && states[|states| - 1] == Rest(head, head + 1, 1, cs)
    ensures IsWindowRun(w, states', actions')
    ensures states'[|states'| - 1] == State(head + 1, head, head + 2, 1, [LoadTail(One, 1, 1, head + 1), Idle], cs)
  {
    var n := head + 1;
    states', actions' := RunOn(w, states, actions, Enqueue(1), State(n, head, n, 1, [Idle, Idle], cs));
    states', actions' := RunOn(w, states', actions', Call(0, One),
        State(n, head, n, 1, [LoadOvercommit(One, n), Idle], cs));
    states', actions' := RunOn(w, states', actions', Continue(0),
        State(n, head, n, 1, [LoadOptimistic(One, n, 1), Idle], cs));
    states', actions' := RunOn(w, states', actions', Continue(0),
        State(n, head, n, 1, [TakeTickets(One, 1, 1), Idle], cs));
    states', actions' := RunOn(w, states', actions', Continue(0),
                               State(n, head, n + 1, 1, [LoadTail(One, 1, 1, n), Idle], cs));
  }

  /** Any number of elements enqueued and dequeued one by one. */
  lemma {:induction false} DequeueMany(w: nat, n: nat)
      returns (states: seq<State>, actions: seq<Action>, cs: seq<Claim>)
    requires w >= 2
    ensures IsWindowRun(w, states, actions) && states[|states| - 1] == Rest(n + 1, n + 2, 1, cs)
    decreases n
  {
    if n == 0 {
      states, actions := Race(w);
      cs := [Claim(0, 1)];
    } else {
      states, actions, cs := DequeueMany(w, n - 1);
      states, actions := TakeNext(w, states, actions, n, cs);
      states, actions := RunOn(w, states, actions, Continue(0), State(n + 1, n, n + 2, 1, [ClaimHead(1), Idle], cs));
      states, actions := RunOn(w, states, actions, Continue(0),
                               State(n + 1, n + 1, n + 2, 1, [Claimed(n, 1), Idle], cs + [Claim(n, 1)]));
      cs := cs + [Claim(n, 1)];
      states, actions := RunOn(w, states, actions, Continue(0), Rest(n + 1, n + 2, 1, cs));
    }
  }

  /**
   The assertion can fail: a lost race leaves an overcommit of 1, and the ticket numbered 2^w has the
   word 0. Every comparison of the run is in the window, so the words follow it.
   */
  lemma OvercommitAssertFails(w: nat) returns (states: seq<State>, actions: seq<Action>, p: Pc)
    requires w >= 2
    ensures IsWindowRun(w, states, actions) && states[|states| - 1].pc == [p, Idle]
    ensures p == LoadTail(One, 1, 1, Pow2(w)) && WordPc(w, p).over == 1 && WordPc(w, p).mine == 0
  {
    assert Pow2(w) == 4 * Pow2(w - 2);
    var n: nat := Pow2(w) - 2;
    var cs;
    states, actions, cs := DequeueMany(w, n);
    states, actions := TakeNext(w, states, actions, n + 1, cs);
    p := LoadTail(One, 1, 1, n + 2);
    ModUnique(1, Pow2(w), 0, 1);
    ModUnique(Pow2(w), Pow2(w), 1, 0);
  }

  // ---------------------------------------------------------------------
  // A comparison outside the window
  // ---------------------------------------------------------------------

  const STALLED := LoadTail(One, 0, 1, 0)

  /** The second consumer stays behind with the first ticket while n elements are dequeued and n + 1 enqueued. */
  lemma {:induction false} OvertakeMany(w: nat, n: nat)
      returns (states: seq<State>, actions: seq<Action>, cs: seq<Claim>)
    requires w >= 2
    ensures IsWindowRun(w, states, actions) && states[|states| - 1] == State(n + 1, n, n + 1, 0, [Idle, STALLED], cs)
    decreases n
  {
    if n == 0 {
      states, actions := StallFirst(w);
      cs := [];
    } else {
      states, actions, cs := OvertakeMany(w, n - 1);
      states, actions := TakeAhead(w, states, actions, n, cs);
      states, actions := RunOn(w, states, actions, Continue(0),
          State(n + 1, n - 1, n + 1, 0, [ClaimHead(1), STALLED], cs));
      states, actions := RunOn(w, states, actions, Continue(0),
                               State(n + 1, n, n + 1, 0, [Claimed(n - 1, 1), STALLED], cs + [Claim(n - 1, 1)]));
      cs := cs + [Claim(n - 1, 1)];
      states, actions := RunOn(w, states, actions, Continue(0), State(n + 1, n, n + 1, 0, [Idle, STALLED], cs));
    }
  }

  lemma StallFirst(w: nat) returns (states: seq<State>, actions: seq<Action>)
    requires w >= 2
    ensures IsWindowRun(w, states, actions) && states[|states| - 1] == State(1, 0, 1, 0, [Idle, STALLED], [])
  {
    states, actions := [State(0, 0, 0, 0, [Idle, Idle], [])], [];
    states, actions := RunOn(w, states, actions, Enqueue(1), State(1, 0, 0, 0, [Idle, Idle], []));
    states, actions := RunOn(w, states, actions, Call(1, One), State(1, 0, 0, 0, [Idle, LoadOvercommit(One, 1)], []));
    states, actions := RunOn(w, states, actions, Continue(1), State(1, 0, 0, 0, [Idle, LoadOptimistic(One, 1, 0)], []));
    states, actions := RunOn(w, states, actions, Continue(1), State(1, 0, 0, 0, [Idle, TakeTickets(One, 0, 1)], []));
    states, actions := RunOn(w, states, actions, Continue(1), State(1, 0, 1, 0, [Idle, STALLED], []));
  }

  lemma TakeAhead(w: nat, states: seq<State>, actions: seq<Action>, n: nat, cs: seq<Claim>)
      returns (states': seq<State>, actions': seq<Action>)
    requires w >= 2 && n >= 1 && IsWindowRun(w, states, actions)
    requires states[|states| - 1] == State(n, n - 1, n, 0, [Idle, STALLED], cs)
    ensures IsWindowRun(w, states', actions')
    ensures states'[|states'| - 1] == State(n + 1, n - 1, n + 1, 0, [LoadTail(One, 0, 1, n), STALLED], cs)
  {
    var m, h := n + 1, n - 1;
    states', actions' := RunOn(w, states, actions, Enqueue(1), State(m, h, n, 0, [Idle, STALLED], cs));
    states', actions' := RunOn(w, states', actions', Call(0, One),
        State(m, h, n, 0, [LoadOvercommit(One, m), STALLED], cs));
    states', actions' := RunOn(w, states', actions', Continue(0),
        State(m, h, n, 0, [LoadOptimistic(One, m, 0), STALLED], cs));
    states', actions' := RunOn(w, states', actions', Continue(0),
        State(m, h, n, 0, [TakeTickets(One, 0, 1), STALLED], cs));
    states', actions' := RunOn(w, states', actions', Continue(0),
        State(m, h, m, 0, [LoadTail(One, 0, 1, n), STALLED], cs));
  }

  /**
   A consumer can be overtaken by so much that its comparison leaves the window: it holds the first
   ticket, an element is there, and on words it gives the ticket back.
   */
  lemma WindowCanBeLeft(w: nat) returns (states: seq<State>, actions: seq<Action>)
    requires w >= 2
    ensures IsWindowRun(w, states, actions)
    ensures var s := states[|states| - 1];
      && s.pc == [Idle, STALLED] && s.head < s.tail
      && !ComparesInWindow(w, s, Continue(1)) && !StepAgrees(w, s, Continue(1))
      && Step(s, 1).pc[1] == ClaimHead(1)
      && WordStep(w, WordState(w, s), 1).pc[1] == ReturnAll(1)
  {
    var h: int := Pow2(w - 1);
    assert h == 2 * Pow2(w - 2);
    var cs;
    states, actions, cs := OvertakeMany(w, h - 1);
    ModUnique(0, Pow2(w), 0, 0);
    ModUnique(h, Pow2(w), 0, h);
    ModUnique(-h, Pow2(w), -1, h);
  }
}
