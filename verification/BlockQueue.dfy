/**
 The sub-queue of one explicit producer: a circular ring of blocks, a growable
 circular index of blocks, and any number of concurrent consumers.

 One thread runs single-element `enqueue`; any number of threads run `dequeue` and
 `dequeue_bulk`. Consumers first win index ranges through the ticket protocol of
 module Tickets, then find and empty the blocks concurrently. Every step performs at
 most one access to memory that another thread may be using.
 */
module BlockQueue {

  import opened ModularCounters
  import Tickets

  type Elem = int
  type Thread = nat

  type Width = w: nat | w >= 1 witness 1

  /** Fixed parameters: block size 2^kb, word width w, and the size limit of the sub-queue. */
  datatype Config = Config(kb: nat, w: Width, limit: Limit)
  datatype Limit = Unlimited | AtMost(elements: nat)

  function BlockSize(c: Config): nat
  {
    Pow2(c.kb)
  }

  /** The number of the block an element index belongs to, and the offset inside the block. */
  function Num(c: Config, j: int): int
  {
    j / BlockSize(c)
  }

  function Off(c: Config, j: int): (r: nat)
    ensures r < BlockSize(c)
  {
    j % BlockSize(c)
  }

  /** Empty flags are kept in reverse order. */
  function FlagAt(c: Config, j: int): (r: nat)
    ensures r < BlockSize(c)
  {
    BlockSize(c) - 1 - Off(c, j)
  }

  datatype Cell = Empty | Full(value: Elem)
  datatype Block = Block(next: nat, flags: seq<bool>, cells: seq<Cell>)
  datatype Ptr = Null | Ref(block: nat)

  /** An index of 2^ks slots; front is the current slot, -1 while nothing has been entered. */
  datatype Entry = Entry(base: int, block: nat)
  datatype Index = Index(ks: nat, front: int, entries: seq<Entry>)

  datatype ProdPc =
    | PIdle
    | PScan(v: Elem, f: nat)       // is_empty on the block after the tail block
    | PReset(v: Elem, f: nat)      // reset_empty on that block
    | PCheckRoom(v: Elem)          // leeway and size limit, and room in the block index
    | PGrow(v: Elem)               // new_block_index
    | PRequisition(v: Elem)        // requisition_block and its insertion into the ring
    | PEntryBase(v: Elem)
    | PEntryBlock(v: Elem)
    | PFront(v: Elem)
    | PConstruct(v: Elem)
    | PTail(v: Elem)

  /** A consumer with a claim: `i` is the next element to handle, `last` the end of the claim. */
  datatype ConsPc =
    | CNone
    | CLoadIndex(i: int, last: int)
    | CLoadFront(ix: nat, i: int, last: int)
    | CLoadBase(ix: nat, front: nat, i: int, last: int)
    | CLoadBlock(ix: nat, slot: nat, i: int, last: int)
    | CRead(ix: nat, slot: nat, block: nat, lo: int, i: int, hi: int, last: int)
    | CFlag(ix: nat, slot: nat, block: nat, lo: int, f: int, hi: int, last: int)

  datatype State = State(
    q: Tickets.State,          // tail, head and ticket counters, with the consumers' ticket phase
    cons: seq<ConsPc>,         // the consumers' element phase
    prod: ProdPc,
    block: seq<Block>,
    tailBlock: Ptr,
    index: seq<Index>,         // every index ever published; the last one is `blockIndex`
    ks: nat,                   // pr_blockIndexSize == 2^ks
    slotsUsed: nat,            // pr_blockIndexSlotsUsed
    prFront: nat,              // pr_blockIndexFront, the next slot
    enqueued: seq<Elem>,       // history: the element enqueued at each index
    delivered: map<int, Elem>) // history: what was read out, by index

  datatype Action =
    | Enqueue(v: Elem)
    | Produce(ok: bool)        // ok: this step's allocation succeeds
    | Call(thread: Thread, req: Tickets.Request)
    | Consume(thread: Thread)

  // ---------------------------------------------------------------------
  // Producer steps
  // ---------------------------------------------------------------------

  function Current(s: State): Index
    requires |s.index| > 0
  {
    s.index[|s.index| - 1]
  }

  /**
   The test at lines 1795-1796, on words: one more block leaves no leeway before the head, or exceeds the size
   limit.
   */
  predicate NoRoom(c: Config, head: int, tail: int)
  {
    || !CircularLessThan(c.w, Word(c.w, head), Word(c.w, tail + BlockSize(c)))
    || (c.limit.AtMost? && (c.limit.elements == 0 || c.limit.elements - BlockSize(c) < Word(c.w, tail - head)))
  }

  function StartEnqueue(c: Config, s: State, v: Elem): ProdPc
  {
    if Off(c, s.q.tail) != 0 then PConstruct(v)
    else if s.tailBlock.Null? then PCheckRoom(v)
    else PScan(v, 0)
  }

  /** The slot of the k-th oldest used entry. */
  function UsedSlot(front: int, used: int, k: int, size: nat): (r: nat)
    requires size > 0
    ensures r < size
  {
    (front - used + k) % size
  }

  /** The entries an index of twice the size starts with: the used slots, oldest first. */
  function GrownEntries(entries: seq<Entry>, front: nat, used: nat, size: nat): (r: seq<Entry>)
    requires used == 0 || |entries| > 0
    ensures |r| == size
  {
    seq(size, j requires 0 <= j < size => if j < used then entries[UsedSlot(front, used, j, |entries|)]
        else Entry(0, 0))
  }

  /** The copying loop of new_block_index, run on the new index before it is published. */
  method CopyUsedEntries(entries: array<Entry>, front: nat, used: nat, grown: array<Entry>) returns (next: nat)
    requires front < entries.Length && used <= entries.Length && grown != entries && used <= grown.Length
    modifies grown
    ensures next == used
    ensures grown[..used] == GrownEntries(entries[..], front, used, grown.Length)[..used]
    ensures grown[used..] == old(grown[used..])
  {
    var size := entries.Length;
    var j := 0;
    if used != 0 {
      var i := (front - used) % size;
      assert i == UsedSlot(front, used, 0, size);
      hide UsedSlot;
      while true
        invariant 0 <= j < used && i == UsedSlot(front, used, j, size)
        invariant forall k :: 0 <= k < j ==> grown[k] == entries[UsedSlot(front, used, k, size)]
        invariant forall k :: used <= k < grown.Length ==> grown[k] == old(grown[k])
        decreases used - j
      {
        grown[j] := entries[i];
        NextUsedSlot(front, used, j, size);
        j := j + 1;
        i := (i + 1) % size;
        if i == front { break; }
      }
    }
    next := j;
  }

  /** Running round the old index, the copy meets the front slot exactly after all used entries. */
  lemma NextUsedSlot(front: nat, used: nat, j: nat, size: nat)
    requires front < size && j < used <= size
    ensures (UsedSlot(front, used, j, size) + 1) % size == UsedSlot(front, used, j + 1, size)
    ensures UsedSlot(front, used, j + 1, size) == front <==> j + 1 == used
  {
    ModAdd(front - used + j, 1, size);
    ModUnique(front, size, 0, front);
    if j + 1 < used {
      SlotsDiffer(front, j + 1 - used, 0, size);
    }
  }

  function FreshBlock(c: Config, next: nat): Block
  {
    Block(next, seq(BlockSize(c), i => false), seq(BlockSize(c), i => Empty))
  }

  predicate ProdEnabled(c: Config, s: State, ok: bool)
  {
    match s.prod
    case PIdle => false
    case PScan(_, f) => s.tailBlock.Ref? && s.tailBlock.block < |s.block| &&
                        var n := s.block[s.tailBlock.block].next; n < |s.block| && f < |s.block[n].flags|
    case PReset(_, f) => s.tailBlock.Ref? && s.tailBlock.block < |s.block| && f < |s.block[s.tailBlock.block].flags|
    case PCheckRoom(_) => true
    case PGrow(_) =>
      && (|s.index| > 0 ==> |Current(s).entries| > 0) && (|s.index| == 0 ==> s.slotsUsed == 0)
      && (ok ==> c.kb + s.ks + 1 <= c.w)  // an index whose blocks exceed the address space cannot be allocated
    case PRequisition(_) =>
      && (s.tailBlock.Ref? ==> s.tailBlock.block < |s.block|)
      && (ok ==> 2 * ((s.slotsUsed + 1) * BlockSize(c)) < Pow2(c.w))  // each element has a byte at least, and a flag
    case PEntryBase(_) => |s.index| > 0 && s.prFront < |Current(s).entries|
    case PEntryBlock(_) => |s.index| > 0 && s.prFront < |Current(s).entries| && s.tailBlock.Ref?
    case PFront(_) => |s.index| > 0
    case PConstruct(_) =>
      s.tailBlock.Ref? && s.tailBlock.block < |s.block| && Off(c, s.q.tail) < |s.block[s.tailBlock.block].cells|
    case PTail(_) => true
  }

  function ProdNext(c: Config, s: State, ok: bool): State
    requires ProdEnabled(c, s, ok)
  {
    match s.prod
    case PScan(v, f) =>
      var n := s.block[s.tailBlock.block].next;
      if !s.block[n].flags[f] then s.(prod := PCheckRoom(v))
      else if f + 1 < BlockSize(c) then s.(prod := PScan(v, f + 1))
      else s.(tailBlock := Ref(n), prod := PReset(v, 0))
    case PReset(v, f) =>
      var b := s.tailBlock.block;
      s.(block := s.block[b := s.block[b].(flags := s.block[b].flags[f := false])],
         prod := if f + 1 < BlockSize(c) then PReset(v, f + 1) else PEntryBase(v))
    case PCheckRoom(v) =>
      s.(prod := if NoRoom(c, s.q.head, s.q.tail) then PIdle
                 else if |s.index| == 0 || s.slotsUsed == Pow2(s.ks) then PGrow(v)
                 else PRequisition(v))
    case PGrow(v) =>
      if !ok then s.(prod := PIdle)
      else
        var entries := if |s.index| == 0 then [] else Current(s).entries;
        var grown := GrownEntries(entries, s.prFront, s.slotsUsed, Pow2(s.ks + 1));
        s.(index := s.index + [Index(s.ks + 1, s.slotsUsed - 1, grown)],
           ks := s.ks + 1, prFront := s.slotsUsed, prod := PRequisition(v))
    case PRequisition(v) =>
      if !ok then s.(prod := PIdle)
      else
        var n := |s.block|;
        var linked :=
          if s.tailBlock.Null? then s.block + [FreshBlock(c, n)]
          else
            var b := s.tailBlock.block;
            s.block[b := s.block[b].(next := n)] + [FreshBlock(c, s.block[b].next)];
        s.(block := linked, tailBlock := Ref(n), slotsUsed := s.slotsUsed + 1, prod := PEntryBase(v))
    case PEntryBase(v) =>
      SetEntry(s, Current(s).entries[s.prFront].(base := s.q.tail)).(prod := PEntryBlock(v))
    case PEntryBlock(v) =>
      SetEntry(s, Current(s).entries[s.prFront].(block := s.tailBlock.block)).(prod := PFront(v))
    case PFront(v) =>
      s.(index := s.index[|s.index| - 1 := Current(s).(front := s.prFront)],
         prFront := (s.prFront + 1) % Pow2(s.ks), prod := PConstruct(v))
    case PConstruct(v) =>
      var b := s.tailBlock.block;
      s.(block := s.block[b := s.block[b].(cells := s.block[b].cells[Off(c, s.q.tail) := Full(v)])],
         prod := PTail(v))
    case PTail(v) =>
      s.(q := Tickets.Next(s.q, Tickets.Enqueue(1)), enqueued := s.enqueued + [v], prod := PIdle)
  }

  function SetEntry(s: State, e: Entry): State
    requires |s.index| > 0 && s.prFront < |Current(s).entries|
  {
    s.(index := s.index[|s.index| - 1 := Current(s).(entries := Current(s).entries[s.prFront := e])])
  }

  // ---------------------------------------------------------------------
  // Consumer steps
  // ---------------------------------------------------------------------

  /** The end of the part of a claim that lies in the block of element i. */
  function EndInBlock(c: Config, i: int, last: int): int
  {
    Tickets.Min(last, i - Off(c, i) + BlockSize(c))
  }

  /** The steps that lead a consumer from its claim to the block of element i. */
  predicate Loading(p: ConsPc)
  {
    p.CLoadIndex? || p.CLoadFront? || p.CLoadBase? || p.CLoadBlock?
  }

  predicate LoadEnabled(c: Config, index: seq<Index>, p: ConsPc)
    requires Loading(p)
  {
    match p
    case CLoadIndex(_, _) => |index| > 0
    case CLoadFront(ix, _, _) => ix < |index| && index[ix].front >= 0
    case CLoadBase(ix, f, _, _) => ix < |index| && f < |index[ix].entries| && c.kb <= c.w
    case CLoadBlock(ix, slot, _, _) => ix < |index| && slot < |index[ix].entries|
  }

  function LoadNext(c: Config, index: seq<Index>, p: ConsPc): ConsPc
    requires Loading(p) && LoadEnabled(c, index, p)
  {
    match p
    case CLoadIndex(i, last) => CLoadFront(|index| - 1, i, last)
    case CLoadFront(ix, i, last) => CLoadBase(ix, index[ix].front, i, last)
    case CLoadBase(ix, f, i, last) =>
      CLoadBlock(ix, MaskedSlot(c.w, c.kb, index[ix].ks, f, Word(c.w, index[ix].entries[f].base), Word(c.w, i)), i,
          last)
    case CLoadBlock(ix, slot, i, last) =>
      CRead(ix, slot, index[ix].entries[slot].block, i, i, EndInBlock(c, i, last), last)
  }

  predicate ConsEnabled(c: Config, s: State, t: Thread)
  {
    t < |s.cons| && t < |s.q.pc| && s.q.pc[t] != Tickets.Idle &&
    match s.cons[t]
    case CNone => true
    case CRead(ix, _, b, _, i, _, _) =>
      ix < |s.index| && b < |s.block| && Off(c, i) < |s.block[b].cells| && s.block[b].cells[Off(c, i)].Full?
    case CFlag(ix, _, b, _, f, _, _) => ix < |s.index| && b < |s.block| && FlagAt(c, f - 1) < |s.block[b].flags|
    case _ => LoadEnabled(c, s.index, s.cons[t])
  }

  function ConsNext(c: Config, s: State, t: Thread): State
    requires ConsEnabled(c, s, t)
  {
    match s.cons[t]
    case CNone =>
      // the ticket phase; a claim of no element at all touches no block
      var q' := Tickets.Next(s.q, Tickets.Continue(t));
      if s.q.pc[t].ClaimHead? && s.q.pc[t].actual > 0 then
        s.(q := q', cons := s.cons[t := CLoadIndex(s.q.head, s.q.head + s.q.pc[t].actual)])
      else s.(q := q')
    case CRead(ix, slot, b, lo, i, hi, last) =>
      var cells := s.block[b].cells;
      s.(block := s.block[b := s.block[b].(cells := cells[Off(c, i) := Empty])],
         delivered := s.delivered[i := cells[Off(c, i)].value],
         cons := s.cons[t := if i + 1 < hi then CRead(ix, slot, b, lo, i + 1, hi, last)
                             else CFlag(ix, slot, b, lo, hi, hi, last)])
    case CFlag(ix, slot, b, lo, f, hi, last) =>
      // set_many_empty runs through the reversed flags upwards, so through the elements downwards
      var s' := s.(block := s.block[b := s.block[b].(flags := s.block[b].flags[FlagAt(c, f - 1) := true])]);
      if f - 1 > lo then s'.(cons := s.cons[t := CFlag(ix, slot, b, lo, f - 1, hi, last)])
      else if hi < last then s'.(cons := s.cons[t := CLoadBlock(ix, (slot + 1) % Pow2(s.index[ix].ks), hi, last)])
      else s'.(cons := s.cons[t := CNone], q := Tickets.Next(s.q, Tickets.Continue(t)))
    case _ => s.(cons := s.cons[t := LoadNext(c, s.index, s.cons[t])])
  }

  predicate Enabled(c: Config, s: State, a: Action)
  {
    match a
    case Enqueue(_) => s.prod == PIdle
    case Produce(ok) => ProdEnabled(c, s, ok)
    case Call(t, _) => t < |s.q.pc| && t < |s.cons| && s.q.pc[t] == Tickets.Idle && s.cons[t] == CNone
    case Consume(t) => ConsEnabled(c, s, t)
  }

  function Next(c: Config, s: State, a: Action): State
    requires Enabled(c, s, a)
  {
    match a
    case Enqueue(v) => s.(prod := StartEnqueue(c, s, v))
    case Produce(ok) => ProdNext(c, s, ok)
    case Call(t, req) => s.(q := Tickets.Next(s.q, Tickets.Call(t, req)))
    case Consume(t) => ConsNext(c, s, t)
  }

  /** The constructor: an index of twice the initial size, or none if its allocation failed. */
  predicate Init(c: Config, s: State)
  {
    && 1 <= c.kb < c.w
    && Tickets.Init(s.q)
    && |s.cons| == |s.q.pc| && (forall t :: 0 <= t < |s.cons| ==> s.cons[t] == CNone)
    && s.prod == PIdle && s.block == [] && s.tailBlock == Null
    && s.slotsUsed == 0 && s.prFront == 0
    && s.enqueued == [] && s.delivered == map[]
    && (s.index == [] || (|s.index| == 1 && s.ks >= 1 && c.kb + s.ks <= c.w
                          && Current(s).ks == s.ks && Current(s).front == -1 && |Current(s).entries| == Pow2(s.ks)))
  }

  // ---------------------------------------------------------------------
  // Positions
  // ---------------------------------------------------------------------

  lemma NumMonotone(c: Config, i: int, j: int)
    requires i <= j
    ensures Num(c, i) <= Num(c, j)
  {
    var m := BlockSize(c);
    Decompose(i, m);
    Decompose(j, m);
    if Num(c, i) > Num(c, j) {
      MulSub(Num(c, i), Num(c, j), m);
      MulAtLeast(Num(c, i) - Num(c, j), m);
    }
  }

  /** A position is determined by its block number and its offset. */
  lemma SamePosition(c: Config, i: int, j: int)
    requires Num(c, i) == Num(c, j) && Off(c, i) == Off(c, j)
    ensures i == j
  {
    Decompose(i, BlockSize(c));
    Decompose(j, BlockSize(c));
  }

  /** The element before a block boundary lies in the preceding block, any other in the same one. */
  lemma NumBefore(c: Config, j: int)
    ensures Num(c, j - 1) == Num(c, j) - (if Off(c, j) == 0 then 1 else 0)
    ensures Off(c, j) != 0 ==> Off(c, j - 1) == Off(c, j) - 1
    ensures Off(c, j) == 0 ==> Off(c, j - 1) == BlockSize(c) - 1
  {
    var m := BlockSize(c);
    Decompose(j, m);
    if Off(c, j) == 0 {
      MulSub(Num(c, j), 1, m);
      ModUnique(j - 1, m, Num(c, j) - 1, m - 1);
    } else {
      ModUnique(j - 1, m, Num(c, j), Off(c, j) - 1);
    }
  }

  /** The part of a claim that starts at i stays in i's block and ends at its end or at the claim's. */
  lemma EndInBlockOk(c: Config, i: int, last: int)
    requires i < last
    ensures var hi := EndInBlock(c, i, last);
      i < hi <= last && Num(c, hi - 1) == Num(c, i) && (hi < last ==> Off(c, hi) == 0)
  {
    var m, hi := BlockSize(c), EndInBlock(c, i, last);
    var base := i - Off(c, i);
    Decompose(i, m);
    MulSub(Num(c, i), -1, m);
    ModUnique(base + m, m, Num(c, i) + 1, 0);
    NumBefore(c, base + m);
    NumMonotone(c, i, hi - 1);
    NumMonotone(c, hi - 1, base + m - 1);
  }

  // ---------------------------------------------------------------------
  // The invariant
  // ---------------------------------------------------------------------

  /** Where an enqueued element is in its life. */
  datatype Status = Waiting | Taken(consumer: Thread) | Moved(consumer: Thread) | Done

  /** `p` has claimed element j and not read it. */
  predicate Unread(p: ConsPc, j: int)
  {
    match p
    case CNone => false
    case CLoadIndex(i, last) => i <= j < last
    case CLoadFront(_, i, last) => i <= j < last
    case CLoadBase(_, _, i, last) => i <= j < last
    case CLoadBlock(_, _, i, last) => i <= j < last
    case CRead(_, _, _, _, i, _, last) => i <= j < last
    case CFlag(_, _, _, _, _, hi, last) => hi <= j < last
  }

  /** `p` has read element j and not yet set its empty flag. */
  predicate Unflagged(p: ConsPc, j: int)
  {
    match p
    case CRead(_, _, _, lo, i, _, _) => lo <= j < i
    case CFlag(_, _, _, lo, f, _, _) => lo <= j < f
    case _ => false
  }

  predicate RoleOk(p: ConsPc, t: Thread, g: Status, j: int)
  {
    && (g == Taken(t) <==> Unread(p, j))
    && (g == Moved(t) <==> Unflagged(p, j))
  }

  ghost predicate RolesOk(cons: seq<ConsPc>, status: seq<Status>, head: int)
  {
    && (forall t, j :: 0 <= t < |cons| && 0 <= j < |status| ==> RoleOk(cons[t], t, status[j], j))
    && (forall t, j :: 0 <= t < |cons| && !(0 <= j < |status|) ==> !Unread(cons[t], j) && !Unflagged(cons[t], j))
    && (forall j :: 0 <= j < |status| ==> (status[j] == Waiting <==> j >= head))
    && (forall j :: 0 <= j < |status| && (status[j].Taken? || status[j].Moved?) ==> status[j].consumer < |cons|)
  }

  predicate Starting(p: ProdPc)
  {
    p.PScan? || p.PCheckRoom? || p.PGrow? || p.PRequisition?
  }

  /** The tail block is new and not yet entered in the index. */
  predicate Unpublished(p: ProdPc)
  {
    p.PReset? || p.PEntryBase? || p.PEntryBlock? || p.PFront?
  }

  /** How the tail relates to the number of blocks started so far. */
  predicate PhaseOk(c: Config, p: ProdPc, tail: int, blocks: nat)
  {
    if p.PIdle? then Num(c, tail - 1) == blocks - 1
    else if Starting(p) then Off(c, tail) == 0 && Num(c, tail) == blocks
    else if Unpublished(p) then Off(c, tail) == 0 && Num(c, tail) == blocks - 1
    else Num(c, tail) == blocks - 1
  }

  /** The number of the last block entered in the index. */
  function Pub(p: ProdPc, hist: seq<nat>): int
  {
    |hist| - 1 - (if Unpublished(p) then 1 else 0)
  }

  /**
   hist[n] is the block that carries block number n. The ring consists of the last `used`
   of them, linked in order and closed into a circle, without repetition.
   */
  ghost predicate RingOk(block: seq<Block>, tailBlock: Ptr, hist: seq<nat>, used: nat)
  {
    && used <= |hist| && (used == 0 <==> hist == [])
    && tailBlock == (if hist == [] then Null else Ref(hist[|hist| - 1]))
    && (forall n :: |hist| - used <= n < |hist| ==>
          hist[n] < |block| && block[hist[n]].next == hist[if n + 1 < |hist| then n + 1 else |hist| - used])
    && (forall m, n :: |hist| - used <= m < n < |hist| ==> hist[m] != hist[n])
  }

  ghost predicate BlocksShaped(c: Config, block: seq<Block>)
  {
    forall b :: 0 <= b < |block| ==> |block[b].flags| == BlockSize(c) && |block[b].cells| == BlockSize(c)
  }

  /** The number of the block in an index's front slot; -1 while it has none. */
  function LastOf(c: Config, x: Index): int
    requires x.front < |x.entries|
  {
    if x.front < 0 then -1 else Num(c, x.entries[x.front].base)
  }

  /** Consecutive block numbers sit in consecutive slots. */
  function SlotOf(c: Config, x: Index, n: int): (r: nat)
    requires x.front < |x.entries| == Pow2(x.ks)
    ensures r < Pow2(x.ks)
  {
    (x.front + n - LastOf(c, x)) % Pow2(x.ks)
  }

  predicate IndexShaped(c: Config, x: Index)
  {
    x.ks >= 1 && c.kb + x.ks <= c.w && |x.entries| == Pow2(x.ks) && -1 <= x.front < |x.entries|
  }

  predicate EntryOk(c: Config, e: Entry, n: int, hist: seq<nat>)
  {
    0 <= n < |hist| && Off(c, e.base) == 0 && Num(c, e.base) == n && e.block == hist[n]
  }

  /** Every block still in the ring that an index knows is found in its slot, with its base. */
  ghost predicate IndexOk(c: Config, x: Index, hist: seq<nat>, oldest: int, pub: int)
  {
    && IndexShaped(c, x)
    && (x.front >= 0 ==> Off(c, x.entries[x.front].base) == 0 && 0 <= LastOf(c, x))
    && LastOf(c, x) <= pub
    && LastOf(c, x) - oldest < Pow2(x.ks)
    && forall n :: oldest <= n <= LastOf(c, x) ==> EntryOk(c, x.entries[SlotOf(c, x, n)], n, hist)
  }

  ghost predicate IndexesOk(c: Config, index: seq<Index>, hist: seq<nat>, oldest: int, pub: int)
  {
    forall ix :: 0 <= ix < |index| ==> IndexOk(c, index[ix], hist, oldest, pub)
  }

  /** The index in use covers everything published and has room for the ring. */
  predicate CurrentOk(c: Config, index: seq<Index>, ks: nat, prFront: nat, used: nat, pub: int)
  {
    if |index| == 0 then used == 0 && prFront == 0 && pub == -1
    else
      var x := index[|index| - 1];
      && IndexShaped(c, x) && x.ks == ks && LastOf(c, x) == pub && used <= Pow2(ks)
      && prFront == (x.front + 1) % Pow2(ks)
  }

  /** What the cell of index j holds; `pending` is the content of the cell at the tail. */
  function Content(enqueued: seq<Elem>, status: seq<Status>, pending: Cell, j: int): Cell
    requires |enqueued| == |status|
  {
    if 0 <= j < |status| then
      if status[j].Waiting? || status[j].Taken? then Full(enqueued[j]) else Empty
    else if j == |status| then pending
    else Empty
  }

  /** An element constructed but not yet made visible by the tail. */
  function Pending(p: ProdPc): Cell
  {
    if p.PTail? then Full(p.v) else Empty
  }

  predicate ElemOk(c: Config, block: seq<Block>, hist: seq<nat>, enqueued: seq<Elem>, status: seq<Status>,
          pending: Cell, j: int)
  {
    && |enqueued| == |status|
    && 0 <= Num(c, j) < |hist| && hist[Num(c, j)] < |block|
    && var b := block[hist[Num(c, j)]];
       && |b.flags| == BlockSize(c) && |b.cells| == BlockSize(c)
       && b.flags[FlagAt(c, j)] == (0 <= j < |status| && status[j] == Done)
       && b.cells[Off(c, j)] == Content(enqueued, status, pending, j)
  }

  /** Flags and cells of every published block in the ring agree with the elements' status. */
  ghost predicate ElemsOk(c: Config, block: seq<Block>, hist: seq<nat>, enqueued: seq<Elem>, status: seq<Status>,
                          pending: Cell, oldest: int, pub: int)
  {
    forall j :: oldest <= Num(c, j) <= pub ==> ElemOk(c, block, hist, enqueued, status, pending, j)
  }

  /** What the producer has found or written so far in the middle of starting a block. */
  ghost predicate ProgressOk(c: Config, p: ProdPc, block: seq<Block>, hist: seq<nat>, oldest: int,
                             index: seq<Index>, ks: nat, used: nat, prFront: nat, tail: int)
  {
    match p
    case PScan(_, f) => 0 <= oldest < |hist| && hist[oldest] < |block| && FlagsFrom(c, block[hist[oldest]], f, true)
    case PGrow(_) => |index| == 0 || used == Pow2(ks)
    case PRequisition(_) => |index| > 0 && used < Pow2(ks)
    case PReset(_, f) => NewBlock(c, block, hist) && FlagsFrom(c, block[hist[|hist| - 1]], f, false)
    case PEntryBase(_) => NewBlock(c, block, hist) && FlagsClear(block[hist[|hist| - 1]])
    case PEntryBlock(_) =>
      NewBlock(c, block, hist) && FlagsClear(block[hist[|hist| - 1]]) && EntryHas(index, prFront, tail)
    case PFront(_) =>
      && NewBlock(c, block, hist) && FlagsClear(block[hist[|hist| - 1]]) && EntryHas(index, prFront, tail)
      && index[|index| - 1].entries[prFront].block == hist[|hist| - 1]
    case _ => true
  }

  /** Flags 0 .. f-1 of the block have the given value. */
  predicate FlagsFrom(c: Config, b: Block, f: nat, value: bool)
  {
    f < BlockSize(c) && |b.flags| == BlockSize(c) && forall i :: 0 <= i < f ==> b.flags[i] == value
  }

  predicate FlagsClear(b: Block)
  {
    forall i :: 0 <= i < |b.flags| ==> !b.flags[i]
  }

  /** The block about to be published has empty cells only. */
  predicate NewBlock(c: Config, block: seq<Block>, hist: seq<nat>)
  {
    && |hist| > 0 && hist[|hist| - 1] < |block|
    && var cells := block[hist[|hist| - 1]].cells;
       forall i :: 0 <= i < |cells| ==> cells[i] == Empty
  }

  predicate EntryHas(index: seq<Index>, prFront: nat, base: int)
  {
    |index| > 0 && prFront < |index[|index| - 1].entries| && index[|index| - 1].entries[prFront].base == base
  }

  /** The index a consumer works with reaches the last block of its claim. */
  predicate Knows(c: Config, index: seq<Index>, ix: nat, last: int)
  {
    ix < |index| && IndexShaped(c, index[ix]) && Num(c, last - 1) <= LastOf(c, index[ix])
  }

  /** A consumer works on [lo, hi), all in the block it has found. */
  predicate PartOk(c: Config, index: seq<Index>, hist: seq<nat>, ix: nat, slot: nat, b: nat, lo: int, hi: int,
          last: int)
  {
    && Knows(c, index, ix, last) && slot == SlotOf(c, index[ix], Num(c, lo))
    && 0 <= Num(c, lo) < |hist| && b == hist[Num(c, lo)]
    && hi <= last && Num(c, hi - 1) == Num(c, lo) && (hi < last ==> Off(c, hi) == 0)
  }

  /** What a consumer has read about the index stays right as long as it needs it. */
  predicate ConsOk(c: Config, index: seq<Index>, hist: seq<nat>, pub: int, p: ConsPc)
  {
    match p
    case CNone => true
    case CLoadIndex(i, last) => i < last && Num(c, last - 1) <= pub
    case CLoadFront(ix, i, last) => i < last && Knows(c, index, ix, last)
    case CLoadBase(ix, f, i, last) =>
      && i < last && Knows(c, index, ix, last) && f < |index[ix].entries|
      && var base := index[ix].entries[f].base;
         Off(c, base) == 0 && f == SlotOf(c, index[ix], Num(c, base))
             && Num(c, last - 1) <= Num(c, base) <= LastOf(c, index[ix])
    case CLoadBlock(ix, slot, i, last) =>
      i < last && Knows(c, index, ix, last) && slot == SlotOf(c, index[ix], Num(c, i))
    case CRead(ix, slot, b, lo, i, hi, last) =>
      lo <= i < hi && PartOk(c, index, hist, ix, slot, b, lo, hi, last)
    case CFlag(ix, slot, b, lo, f, hi, last) =>
      lo < f <= hi && PartOk(c, index, hist, ix, slot, b, lo, hi, last)
  }

  /** A thread is in its element phase exactly while the ticket protocol says it has claimed something. */
  predicate LinkOk(p: ConsPc, q: Tickets.Pc)
  {
    p != CNone <==> q.Claimed? && q.count > 0
  }

  ghost predicate ConsumersOk(c: Config, index: seq<Index>, hist: seq<nat>, pub: int, cons: seq<ConsPc>)
  {
    forall t :: 0 <= t < |cons| ==> ConsOk(c, index, hist, pub, cons[t])
  }

  ghost predicate LinksOk(cons: seq<ConsPc>, qpc: seq<Tickets.Pc>)
  {
    |cons| == |qpc| && forall t :: 0 <= t < |cons| ==> LinkOk(cons[t], qpc[t])
  }

  /** Elements that are not done are in the ring. */
  ghost predicate OldestOk(c: Config, status: seq<Status>, oldest: int)
  {
    forall j :: 0 <= j < |status| && status[j] != Done ==> oldest <= Num(c, j)
  }

  /** An element has been delivered, with its value, once it was moved out. */
  ghost predicate DeliveredOk(delivered: map<int, Elem>, enqueued: seq<Elem>, status: seq<Status>)
  {
    && |enqueued| == |status|
    && (forall j :: j in delivered <==> 0 <= j < |status| && (status[j].Moved? || status[j].Done?))
    && (forall j :: j in delivered ==> 0 <= j < |enqueued| && delivered[j] == enqueued[j])
  }

  ghost predicate TicketsOk(q: Tickets.State, enqueued: seq<Elem>, status: seq<Status>)
  {
    Tickets.Inv(q) && |status| == |enqueued| == q.tail
  }

  ghost predicate Good(c: Config, s: State, hist: seq<nat>, status: seq<Status>)
  {
    var oldest, pub := |hist| - s.slotsUsed, Pub(s.prod, hist);
    && c.kb >= 1
    && TicketsOk(s.q, s.enqueued, status)
    && PhaseOk(c, s.prod, s.q.tail, |hist|)
    && RingOk(s.block, s.tailBlock, hist, s.slotsUsed)
    && BlocksShaped(c, s.block)
    && IndexesOk(c, s.index, hist, oldest, pub)
    && CurrentOk(c, s.index, s.ks, s.prFront, s.slotsUsed, pub)
    && ElemsOk(c, s.block, hist, s.enqueued, status, Pending(s.prod), oldest, pub)
    && ProgressOk(c, s.prod, s.block, hist, oldest, s.index, s.ks, s.slotsUsed, s.prFront, s.q.tail)
    && ConsumersOk(c, s.index, hist, pub, s.cons)
    && LinksOk(s.cons, s.q.pc)
    && RolesOk(s.cons, status, s.q.head)
    && OldestOk(c, status, oldest)
    && DeliveredOk(s.delivered, s.enqueued, status)
  }

  ghost predicate Inv(c: Config, s: State)
  {
    exists hist, status :: Good(c, s, hist, status)
  }

  lemma InitIndexOk(c: Config, s: State)
    requires Init(c, s)
    ensures IndexesOk(c, s.index, [], 0, -1)
    ensures CurrentOk(c, s.index, s.ks, s.prFront, s.slotsUsed, -1)
  {
    if |s.index| == 1 {
      ModUnique(0, Pow2(s.ks), 0, 0);
    }
  }

  lemma InitPhaseOk(c: Config)
    ensures PhaseOk(c, PIdle, 0, 0)
  {
    ModUnique(-1, BlockSize(c), -1, BlockSize(c) - 1);
  }

  lemma InitHasInv(c: Config, s: State)
    requires Init(c, s)
    ensures Inv(c, s)
  {
    hide IndexesOk, CurrentOk, PhaseOk, Tickets.Inv;
    Tickets.InitHasInv(s.q);
    InitIndexOk(c, s);
    InitPhaseOk(c);
    assert Good(c, s, [], []);
  }

  // ---------------------------------------------------------------------
  // Starting a block
  // ---------------------------------------------------------------------

  /** Re-using the oldest block turns the ring by one. */
  lemma RingTurned(block: seq<Block>, tailBlock: Ptr, hist: seq<nat>, used: nat)
    requires RingOk(block, tailBlock, hist, used) && used > 0
    ensures tailBlock.Ref? && tailBlock.block < |block| && block[tailBlock.block].next == hist[|hist| - used]
    ensures RingOk(block, Ref(hist[|hist| - used]), hist + [hist[|hist| - used]], used)
  {
    var oldest := |hist| - used;
    var hist' := hist + [hist[oldest]];
    assert hist[|hist| - 1] < |block|;
    forall n | oldest + 1 <= n < |hist'|
      ensures hist'[n] < |block| && block[hist'[n]].next == hist'[if n + 1 < |hist'| then n + 1 else oldest + 1]
    {
      assert block[hist[if n < |hist| then n else oldest]].next
             == hist[if n < |hist| then (if n + 1 < |hist| then n + 1 else oldest)
                 else (if oldest + 1 < |hist| then oldest + 1 else oldest)];
    }
  }

  /** Inserting a new block after the tail block makes the ring one longer. */
  lemma RingGrown(c: Config, block: seq<Block>, tailBlock: Ptr, hist: seq<nat>, used: nat, block': seq<Block>)
    requires RingOk(block, tailBlock, hist, used)
    requires tailBlock.Ref? ==> tailBlock.block < |block|
    requires var n := |block|;
      block' == if tailBlock.Null? then block + [FreshBlock(c, n)]
                else block[tailBlock.block := block[tailBlock.block].(next := n)]
                     + [FreshBlock(c, block[tailBlock.block].next)]
    ensures RingOk(block', Ref(|block|), hist + [|block|], used + 1)
  {
    var hist', oldest := hist + [|block|], |hist| - used;
    forall n | oldest <= n < |hist'|
      ensures hist'[n] < |block'| && block'[hist'[n]].next == hist'[if n + 1 < |hist'| then n + 1 else oldest]
    {
      if n < |hist| {
        assert hist[n] < |block| && (n < |hist| - 1 ==> hist[n] != hist[|hist| - 1]);
      }
    }
  }

  lemma IndexesExtended(c: Config, index: seq<Index>, hist: seq<nat>, oldest: int, pub: int, n: nat, oldest': int)
    requires IndexesOk(c, index, hist, oldest, pub) && oldest <= oldest'
    ensures IndexesOk(c, index, hist + [n], oldest', pub)
  {
    hide Num, Off;
    forall ix | 0 <= ix < |index| ensures IndexOk(c, index[ix], hist + [n], oldest', pub) {
      assert IndexOk(c, index[ix], hist, oldest, pub);
    }
  }

  lemma ElemsExtended(c: Config, block: seq<Block>, hist: seq<nat>, enqueued: seq<Elem>, status: seq<Status>,
                      pending: Cell, oldest: int, pub: int, n: nat, oldest': int)
    requires ElemsOk(c, block, hist, enqueued, status, pending, oldest, pub) && oldest <= oldest'
    ensures ElemsOk(c, block, hist + [n], enqueued, status, pending, oldest', pub)
  {
    hide Num, Off, FlagAt;
    forall j | oldest' <= Num(c, j) <= pub ensures ElemOk(c, block, hist + [n], enqueued, status, pending, j) {
      assert ElemOk(c, block, hist, enqueued, status, pending, j);
    }
  }

  lemma ConsumersExtended(c: Config, index: seq<Index>, hist: seq<nat>, pub: int, cons: seq<ConsPc>, n: nat)
    requires ConsumersOk(c, index, hist, pub, cons)
    ensures ConsumersOk(c, index, hist + [n], pub, cons)
  {
    hide Num, Off, SlotOf, LastOf, IndexShaped;
    forall t | 0 <= t < |cons| ensures ConsOk(c, index, hist + [n], pub, cons[t]) {
      assert ConsOk(c, index, hist, pub, cons[t]);
    }
  }

  /** If every flag of the oldest block is set, all its elements are done: the ring may drop it. */
  lemma OldestDrops(c: Config, block: seq<Block>, hist: seq<nat>, enqueued: seq<Elem>, status: seq<Status>,
                    pending: Cell, oldest: int, pub: int)
    requires ElemsOk(c, block, hist, enqueued, status, pending, oldest, pub) && OldestOk(c, status, oldest)
    requires 0 <= oldest <= pub && oldest < |hist| && hist[oldest] < |block|
    requires |block[hist[oldest]].flags| == BlockSize(c)
    requires forall i :: 0 <= i < BlockSize(c) ==> block[hist[oldest]].flags[i]
    ensures OldestOk(c, status, oldest + 1)
  {
    hide Num, Off;
    forall j | 0 <= j < |status| && status[j] != Done ensures oldest + 1 <= Num(c, j) {
      assert Num(c, j) == oldest ==> ElemOk(c, block, hist, enqueued, status, pending, j);
    }
  }

  /** Position i of block n. */
  lemma PositionIn(c: Config, n: int, i: nat) returns (j: int)
    requires i < BlockSize(c)
    ensures Num(c, j) == n && Off(c, j) == i
  {
    j := n * BlockSize(c) + i;
    ModUnique(j, BlockSize(c), n, i);
  }

  /** A block all of whose flags are set holds no element any more. */
  lemma EmptyBlockIsClean(c: Config, block: seq<Block>, hist: seq<nat>, enqueued: seq<Elem>, status: seq<Status>,
                          pending: Cell, oldest: int, pub: int)
    requires ElemsOk(c, block, hist, enqueued, status, pending, oldest, pub)
    requires 0 <= oldest <= pub && oldest < |hist| && hist[oldest] < |block|
    requires |block[hist[oldest]].flags| == BlockSize(c) && |block[hist[oldest]].cells| == BlockSize(c)
    requires forall i :: 0 <= i < BlockSize(c) ==> block[hist[oldest]].flags[i]
    ensures forall i :: 0 <= i < BlockSize(c) ==> block[hist[oldest]].cells[i] == Empty
  {
    hide Num, Off;
    forall i | 0 <= i < BlockSize(c) ensures block[hist[oldest]].cells[i] == Empty {
      var j := PositionIn(c, oldest, i);
      assert ElemOk(c, block, hist, enqueued, status, pending, j);
    }
  }

  lemma ReuseKept(c: Config, s: State, hist: seq<nat>, status: seq<Status>)
    requires Good(c, s, hist, status) && ProdEnabled(c, s, true) && s.prod.PScan?
    requires s.prod.f + 1 >= BlockSize(c) && s.block[s.block[s.tailBlock.block].next].flags[s.prod.f]
    ensures Inv(c, ProdNext(c, s, true))
  {
    hide TicketsOk, IndexesOk, ElemsOk, ConsumersOk, LinksOk, RolesOk, OldestOk, DeliveredOk, CurrentOk, Num, Off;
    var oldest, pub := |hist| - s.slotsUsed, Pub(s.prod, hist);
    RingTurned(s.block, s.tailBlock, hist, s.slotsUsed);
    var n := hist[oldest];
    hide RingOk;
    IndexesExtended(c, s.index, hist, oldest, pub, n, oldest + 1);
    ElemsExtended(c, s.block, hist, s.enqueued, status, Pending(s.prod), oldest, pub, n, oldest + 1);
    ConsumersExtended(c, s.index, hist, pub, s.cons, n);
    OldestDrops(c, s.block, hist, s.enqueued, status, Pending(s.prod), oldest, pub);
    EmptyBlockIsClean(c, s.block, hist, s.enqueued, status, Pending(s.prod), oldest, pub);
    assert Good(c, ProdNext(c, s, true), hist + [n], status);
  }

  /** A step that changes only what the producer is about to do. */
  lemma ProdOnlyKept(c: Config, s: State, hist: seq<nat>, status: seq<Status>, p: ProdPc)
    requires Good(c, s, hist, status)
    requires Pub(p, hist) == Pub(s.prod, hist) && Pending(p) == Pending(s.prod)
    requires PhaseOk(c, p, s.q.tail, |hist|)
    requires ProgressOk(c, p, s.block, hist, |hist| - s.slotsUsed, s.index, s.ks, s.slotsUsed, s.prFront, s.q.tail)
    ensures Inv(c, s.(prod := p))
  {
    hide TicketsOk, IndexesOk, ElemsOk, ConsumersOk, LinksOk, RolesOk, OldestOk, DeliveredOk, CurrentOk, RingOk,
         BlocksShaped;
    hide PhaseOk, ProgressOk;
    assert Good(c, s.(prod := p), hist, status);
  }

  lemma StartKept(c: Config, s: State, hist: seq<nat>, status: seq<Status>, v: Elem)
    requires Good(c, s, hist, status) && s.prod == PIdle
    ensures Inv(c, s.(prod := StartEnqueue(c, s, v)))
  {
    hide TicketsOk, IndexesOk, ElemsOk, ConsumersOk, LinksOk, RolesOk, OldestOk, DeliveredOk, CurrentOk, BlocksShaped,
         Num, Off;
    NumBefore(c, s.q.tail);
    var p := StartEnqueue(c, s, v);
    if p.PScan? {
      RingTurned(s.block, s.tailBlock, hist, s.slotsUsed);
      OldestShaped(c, s, hist, status);
    }
    ProdOnlyKept(c, s, hist, status, p);
  }

  lemma OldestShaped(c: Config, s: State, hist: seq<nat>, status: seq<Status>)
    requires Good(c, s, hist, status) && s.slotsUsed > 0
    ensures var oldest := |hist| - s.slotsUsed;
            0 <= oldest < |hist| && hist[oldest] < |s.block| && |s.block[hist[oldest]].flags| == BlockSize(c)
  {
    hide TicketsOk, IndexesOk, ElemsOk, ConsumersOk, LinksOk, RolesOk, OldestOk, DeliveredOk, CurrentOk, PhaseOk,
         ProgressOk;
  }

  /** Scanning the next flag, checking for room, and every failure on the way. */
  lemma PrepareKept(c: Config, s: State, hist: seq<nat>, status: seq<Status>, ok: bool)
    requires Good(c, s, hist, status) && ProdEnabled(c, s, ok)
    requires s.prod.PScan? || s.prod.PCheckRoom? || ((s.prod.PGrow? || s.prod.PRequisition?) && !ok)
    ensures Inv(c, ProdNext(c, s, ok))
  {
    hide TicketsOk, IndexesOk, ElemsOk, ConsumersOk, LinksOk, RolesOk, OldestOk, DeliveredOk, BlocksShaped, Num, Off;
    var p := ProdNext(c, s, ok).prod;
    if s.prod.PScan? && p.PReset? {
      ReuseKept(c, s, hist, status);
    } else {
      NumBefore(c, s.q.tail);
      if s.prod.PScan? {
        RingTurned(s.block, s.tailBlock, hist, s.slotsUsed);
      }
      hide RingOk;
      ProdOnlyKept(c, s, hist, status, p);
    }
  }

  // ---------------------------------------------------------------------
  // Writing into blocks
  // ---------------------------------------------------------------------

  /** Changing flags or cells of a block does not change the ring. */
  lemma RingLinksOnly(block: seq<Block>, block': seq<Block>, tailBlock: Ptr, hist: seq<nat>, used: nat)
    requires RingOk(block, tailBlock, hist, used)
    requires |block'| == |block| && forall b :: 0 <= b < |block| ==> block'[b].next == block[b].next
    ensures RingOk(block', tailBlock, hist, used)
  {
  }

  /** Writing into the not yet published block leaves the published elements alone. */
  lemma ElemsElsewhere(c: Config, block: seq<Block>, tailBlock: Ptr, hist: seq<nat>, used: nat, r: Block,
                       enqueued: seq<Elem>, status: seq<Status>, pending: Cell)
    requires RingOk(block, tailBlock, hist, used) && |hist| > 0
    requires ElemsOk(c, block, hist, enqueued, status, pending, |hist| - used, |hist| - 2)
    ensures ElemsOk(c, block[hist[|hist| - 1] := r], hist, enqueued, status, pending, |hist| - used, |hist| - 2)
  {
    hide Num, Off, FlagAt;
    var block' := block[hist[|hist| - 1] := r];
    forall j | |hist| - used <= Num(c, j) <= |hist| - 2 ensures ElemOk(c, block', hist, enqueued, status, pending, j) {
      assert ElemOk(c, block, hist, enqueued, status, pending, j);
      assert hist[Num(c, j)] != hist[|hist| - 1];
    }
  }

  lemma ResetKept(c: Config, s: State, hist: seq<nat>, status: seq<Status>)
    requires Good(c, s, hist, status) && ProdEnabled(c, s, true) && s.prod.PReset?
    ensures Inv(c, ProdNext(c, s, true))
  {
    hide TicketsOk, IndexesOk, ElemsOk, ConsumersOk, LinksOk, RolesOk, OldestOk, DeliveredOk, CurrentOk, Num, Off;
    var s' := ProdNext(c, s, true);
    RingLinksOnly(s.block, s'.block, s.tailBlock, hist, s.slotsUsed);
    var b := hist[|hist| - 1];
    ElemsElsewhere(c, s.block, s.tailBlock, hist, s.slotsUsed, s'.block[b], s.enqueued, status, Empty);
    hide RingOk;
    assert Good(c, s', hist, status);
  }

  /** Linking in a new block touches only the next field of the old tail block. */
  lemma ElemsLinked(c: Config, block: seq<Block>, block': seq<Block>, hist: seq<nat>, enqueued: seq<Elem>,
          status: seq<Status>, pending: Cell, oldest: int, pub: int)
    requires ElemsOk(c, block, hist, enqueued, status, pending, oldest, pub)
    requires |block'| >= |block|
    requires forall b :: 0 <= b < |block| ==> block'[b].flags == block[b].flags && block'[b].cells == block[b].cells
    ensures ElemsOk(c, block', hist, enqueued, status, pending, oldest, pub)
  {
    hide Num, Off, FlagAt;
    forall j | oldest <= Num(c, j) <= pub ensures ElemOk(c, block', hist, enqueued, status, pending, j) {
      assert ElemOk(c, block, hist, enqueued, status, pending, j);
    }
  }

  lemma RequisitionKept(c: Config, s: State, hist: seq<nat>, status: seq<Status>)
    requires Good(c, s, hist, status) && ProdEnabled(c, s, true) && s.prod.PRequisition?
    ensures Inv(c, ProdNext(c, s, true))
  {
    hide TicketsOk, IndexesOk, ElemsOk, ConsumersOk, LinksOk, RolesOk, OldestOk, DeliveredOk, RingOk, Num, Off;
    var s' := ProdNext(c, s, true);
    var oldest, pub, n := |hist| - s.slotsUsed, Pub(s.prod, hist), |s.block|;
    RingGrown(c, s.block, s.tailBlock, hist, s.slotsUsed, s'.block);
    IndexesExtended(c, s.index, hist, oldest, pub, n, oldest);
    ElemsLinked(c, s.block, s'.block, hist, s.enqueued, status, Pending(s.prod), oldest, pub);
    ElemsExtended(c, s'.block, hist, s.enqueued, status, Pending(s.prod), oldest, pub, n, oldest);
    ConsumersExtended(c, s.index, hist, pub, s.cons, n);
    assert Good(c, s', hist + [n], status);
  }

  lemma ConstructKept(c: Config, s: State, hist: seq<nat>, status: seq<Status>)
    requires Good(c, s, hist, status) && ProdEnabled(c, s, true) && s.prod.PConstruct?
    ensures Inv(c, ProdNext(c, s, true))
  {
    hide TicketsOk, IndexesOk, ElemsOk, ConsumersOk, LinksOk, RolesOk, OldestOk, DeliveredOk, CurrentOk, Num, Off;
    var s' := ProdNext(c, s, true);
    RingLinksOnly(s.block, s'.block, s.tailBlock, hist, s.slotsUsed);
    TicketsFacts(s.q, s.enqueued, status);
    ElemWritten(c, s, hist, status);
    hide RingOk;
    assert Good(c, s', hist, status);
  }

  lemma TicketsFacts(q: Tickets.State, enqueued: seq<Elem>, status: seq<Status>)
    requires TicketsOk(q, enqueued, status)
    ensures |status| == |enqueued| == q.tail && 0 <= q.head <= q.tail && Tickets.Inv(q)
  {
  }

  /** Constructing the element at the tail fills exactly the tail's cell. */
  lemma ElemWritten(c: Config, s: State, hist: seq<nat>, status: seq<Status>)
    requires RingOk(s.block, s.tailBlock, hist, s.slotsUsed) && ProdEnabled(c, s, true) && s.prod.PConstruct?
    requires Num(c, s.q.tail) == |hist| - 1 && |status| == |s.enqueued| == s.q.tail
    requires ElemsOk(c, s.block, hist, s.enqueued, status, Empty, |hist| - s.slotsUsed, |hist| - 1)
    ensures ElemsOk(c, ProdNext(c, s, true).block, hist, s.enqueued, status, Full(s.prod.v), |hist| - s.slotsUsed,
        |hist| - 1)
  {
    hide Num, Off, FlagAt;
    var s' := ProdNext(c, s, true);
    forall j | |hist| - s.slotsUsed <= Num(c, j) <= |hist| - 1
      ensures ElemOk(c, s'.block, hist, s.enqueued, status, Full(s.prod.v), j)
    {
      assert ElemOk(c, s.block, hist, s.enqueued, status, Empty, j);
      if Num(c, j) == Num(c, s.q.tail) && Off(c, j) == Off(c, s.q.tail) {
        SamePosition(c, j, s.q.tail);
      }
    }
  }

  // ---------------------------------------------------------------------
  // Publishing
  // ---------------------------------------------------------------------

  lemma RolesExtended(cons: seq<ConsPc>, status: seq<Status>, head: int)
    requires RolesOk(cons, status, head) && head <= |status|
    ensures RolesOk(cons, status + [Waiting], head)
  {
    var status' := status + [Waiting];
    forall t, j | 0 <= t < |cons| && 0 <= j < |status'| ensures RoleOk(cons[t], t, status'[j], j) {
      if j < |status| {
        assert RoleOk(cons[t], t, status[j], j);
      } else {
        assert !Unread(cons[t], j) && !Unflagged(cons[t], j);
      }
    }
  }

  lemma ElemsPublished(c: Config, block: seq<Block>, hist: seq<nat>, enqueued: seq<Elem>, status: seq<Status>,
                       v: Elem, oldest: int, pub: int)
    requires ElemsOk(c, block, hist, enqueued, status, Full(v), oldest, pub)
    ensures ElemsOk(c, block, hist, enqueued + [v], status + [Waiting], Empty, oldest, pub)
  {
    hide Num, Off, FlagAt;
    forall j | oldest <= Num(c, j) <= pub
      ensures ElemOk(c, block, hist, enqueued + [v], status + [Waiting], Empty, j)
    {
      assert ElemOk(c, block, hist, enqueued, status, Full(v), j);
    }
  }

  lemma NumNonnegative(c: Config, j: int)
    requires j >= 0
    ensures Num(c, j) >= 0
  {
    ModUnique(0, BlockSize(c), 0, 0);
    NumMonotone(c, 0, j);
  }

  lemma OldestExtended(c: Config, status: seq<Status>, oldest: int)
    requires OldestOk(c, status, oldest) && oldest <= Num(c, |status|)
    ensures OldestOk(c, status + [Waiting], oldest)
  {
    hide Num;
  }

  lemma TailKept(c: Config, s: State, hist: seq<nat>, status: seq<Status>)
    requires Good(c, s, hist, status) && s.prod.PTail?
    ensures Inv(c, ProdNext(c, s, true))
  {
    hide IndexesOk, ElemsOk, ConsumersOk, LinksOk, RolesOk, OldestOk, CurrentOk, RingOk, BlocksShaped, ProgressOk, Num,
         Off, Tickets.Inv;
    var s' := ProdNext(c, s, true);
    Tickets.StepKeepsInv(s.q, Tickets.Enqueue(1));
    TicketsFacts(s.q, s.enqueued, status);
    NumNonnegative(c, s.q.tail);
    ElemsPublished(c, s.block, hist, s.enqueued, status, s.prod.v, |hist| - s.slotsUsed, Pub(s.prod, hist));
    RolesExtended(s.cons, status, s.q.head);
    assert |hist| - s.slotsUsed <= Num(c, |status|) by {
      UsedPositive(c, s, hist, status);
    }
    OldestExtended(c, status, |hist| - s.slotsUsed);
    assert ProgressOk(c, PIdle, s.block, hist, |hist| - s.slotsUsed, s.index, s.ks, s.slotsUsed, s.prFront,
        s'.q.tail) by {
      NothingInProgress(c, s, hist, s'.q.tail);
    }
    assert Good(c, s', hist, status + [Waiting]);
  }

  lemma NothingInProgress(c: Config, s: State, hist: seq<nat>, tail: int)
    ensures ProgressOk(c, PIdle, s.block, hist, |hist| - s.slotsUsed, s.index, s.ks, s.slotsUsed, s.prFront, tail)
  {
  }

  lemma UsedPositive(c: Config, s: State, hist: seq<nat>, status: seq<Status>)
    requires Good(c, s, hist, status) && |hist| > 0
    ensures 0 < s.slotsUsed <= |hist|
  {
    hide TicketsOk, IndexesOk, ElemsOk, ConsumersOk, LinksOk, RolesOk, OldestOk, DeliveredOk, CurrentOk, BlocksShaped,
         ProgressOk;
  }

  // ---------------------------------------------------------------------
  // The block index
  // ---------------------------------------------------------------------

  lemma SlotsDiffer(a: int, m: int, n: int, size: int)
    requires 0 < n - m < size
    ensures (a + m) % size != (a + n) % size
  {
    if (a + m) % size == (a + n) % size {
      Decompose(a + m, size);
      Decompose(a + n, size);
      SmallMultiple((a + n) / size - (a + m) / size, n - m, size, (a + n) / size, (a + m) / size);
    }
  }

  /** No multiple of size lies strictly between 0 and size. */
  lemma SmallMultiple(k: int, d: int, size: int, p: int, q: int)
    requires k == p - q && d == p * size - q * size && size > 0
    ensures d <= 0 || d >= size
  {
    MulSub(p, q, size);
    if k >= 1 {
      MulAtLeast(k, size);
    } else if k <= -1 {
      MulSub(0, k, size);
      MulAtLeast(-k, size);
    }
  }

  /** A claimed, unread element is in the ring. */
  lemma HeldInRing(c: Config, cons: seq<ConsPc>, status: seq<Status>, head: int, oldest: int, t: Thread, j: int)
    requires RolesOk(cons, status, head) && OldestOk(c, status, oldest)
    requires t < |cons| && (Unread(cons[t], j) || Unflagged(cons[t], j))
    ensures 0 <= j < |status| && oldest <= Num(c, j)
    ensures status[j] == (if Unread(cons[t], j) then Taken(t) else Moved(t))
  {
    hide Num;
    if 0 <= j < |status| {
      assert RoleOk(cons[t], t, status[j], j);
    }
  }

  /** Writing the slot after the front changes nothing anybody may look at. */
  lemma EntryWritten(c: Config, x: Index, hist: seq<nat>, oldest: int, pub: int, e: Entry, slot: nat)
    requires IndexOk(c, x, hist, oldest, pub) && LastOf(c, x) == pub
    requires slot == (x.front + 1) % Pow2(x.ks) && slot < |x.entries| && pub + 1 - oldest < Pow2(x.ks)
    ensures var x' := x.(entries := x.entries[slot := e]);
      && IndexOk(c, x', hist, oldest, pub) && LastOf(c, x') == pub
      && (forall n :: SlotOf(c, x', n) == SlotOf(c, x, n))
      && IndexShaped(c, x')
      && (forall n :: oldest <= n <= pub ==> x'.entries[SlotOf(c, x, n)] == x.entries[SlotOf(c, x, n)])
  {
    hide Num, Off;
    var size := Pow2(x.ks);
    assert size == 2 * Pow2(x.ks - 1);
    forall n | oldest <= n <= pub ensures SlotOf(c, x, n) != slot {
      SlotsDiffer(x.front - pub, n, pub + 1, size);
    }
    if x.front >= 0 {
      ModUnique(x.front, size, 0, x.front);
      SlotsDiffer(0, x.front, x.front + 1, size);
    }
    var x' := x.(entries := x.entries[slot := e]);
    assert LastOf(c, x') == pub;
    forall n | oldest <= n <= pub ensures EntryOk(c, x'.entries[SlotOf(c, x', n)], n, hist) {
      assert EntryOk(c, x.entries[SlotOf(c, x, n)], n, hist);
    }
  }

  /** A consumer's knowledge survives a change of the current index that moves no slot in use. */
  lemma ConsKept(c: Config, index: seq<Index>, x': Index, hist: seq<nat>, oldest: int, pub: int, pub': int, p: ConsPc)
    requires |index| > 0 && ConsOk(c, index, hist, pub, p) && pub <= pub'
    requires var x := index[|index| - 1];
      && IndexShaped(c, x) && IndexShaped(c, x') && x'.ks == x.ks && LastOf(c, x) <= LastOf(c, x')
      && (forall n :: SlotOf(c, x', n) == SlotOf(c, x, n))
      && (forall n :: oldest <= n <= LastOf(c, x) ==> x'.entries[SlotOf(c, x, n)] == x.entries[SlotOf(c, x, n)])
    requires p.CLoadBase? ==> oldest <= Num(c, p.last - 1)
    ensures ConsOk(c, index[|index| - 1 := x'], hist, pub', p)
  {
    hide Num, Off, LastOf, SlotOf;
  }

  lemma ConsumersKept(c: Config, index: seq<Index>, x': Index, hist: seq<nat>, oldest: int, pub: int, pub': int,
                      cons: seq<ConsPc>, status: seq<Status>, head: int)
    requires |index| > 0 && ConsumersOk(c, index, hist, pub, cons) && pub <= pub'
    requires RolesOk(cons, status, head) && OldestOk(c, status, oldest)
    requires var x := index[|index| - 1];
      && IndexShaped(c, x) && IndexShaped(c, x') && x'.ks == x.ks && LastOf(c, x) <= LastOf(c, x')
      && (forall n :: SlotOf(c, x', n) == SlotOf(c, x, n))
      && (forall n :: oldest <= n <= LastOf(c, x) ==> x'.entries[SlotOf(c, x, n)] == x.entries[SlotOf(c, x, n)])
    ensures ConsumersOk(c, index[|index| - 1 := x'], hist, pub', cons)
  {
    hide Num, Off, LastOf, SlotOf, IndexShaped;
    forall t | 0 <= t < |cons| ensures ConsOk(c, index[|index| - 1 := x'], hist, pub', cons[t]) {
      var p := cons[t];
      assert ConsOk(c, index, hist, pub, p);
      if p.CLoadBase? {
        HeldInRing(c, cons, status, head, oldest, t, p.last - 1);
      }
      ConsKept(c, index, x', hist, oldest, pub, pub', p);
    }
  }

  lemma IndexesUpdated(c: Config, index: seq<Index>, x': Index, hist: seq<nat>, oldest: int, pub: int, pub': int)
    requires IndexesOk(c, index, hist, oldest, pub) && pub <= pub' && |index| > 0
    requires IndexOk(c, x', hist, oldest, pub')
    ensures IndexesOk(c, index[|index| - 1 := x'], hist, oldest, pub')
  {
    hide LastOf, SlotOf, Num, Off;
    var index' := index[|index| - 1 := x'];
    forall ix | 0 <= ix < |index'| ensures IndexOk(c, index'[ix], hist, oldest, pub') {
      assert IndexOk(c, index[ix], hist, oldest, pub);
    }
  }

  lemma CurrentUpdated(c: Config, index: seq<Index>, x': Index, ks: nat, prFront: nat, used: nat, pub: int)
    requires CurrentOk(c, index, ks, prFront, used, pub) && |index| > 0
    requires IndexShaped(c, x') && x'.ks == ks && x'.front == index[|index| - 1].front && LastOf(c, x') == pub
    ensures CurrentOk(c, index[|index| - 1 := x'], ks, prFront, used, pub)
  {
    hide LastOf;
  }

  /** While a block is unpublished, the index in use exists and has a free slot. */
  lemma RoomForEntry(c: Config, s: State, hist: seq<nat>, status: seq<Status>)
    requires Good(c, s, hist, status) && Unpublished(s.prod)
    ensures |hist| > 0 && 0 < s.slotsUsed <= |hist| && |s.index| > 0
    ensures var x, pub := Current(s), Pub(s.prod, hist);
      && IndexShaped(c, x) && x.ks == s.ks && LastOf(c, x) == pub && pub + 1 - (|hist| - s.slotsUsed) < Pow2(s.ks)
      && s.prFront == (x.front + 1) % Pow2(x.ks) && s.prFront < |x.entries|
  {
    hide TicketsOk, ElemsOk, LinksOk, RolesOk, OldestOk, DeliveredOk, BlocksShaped, IndexesOk, ConsumersOk, Num, Off;
  }

  /** Everything about the indexes survives the writing of the next entry. */
  lemma NextEntryWritten(c: Config, s: State, hist: seq<nat>, status: seq<Status>, e: Entry)
    requires Good(c, s, hist, status) && Unpublished(s.prod) && |s.index| > 0 && s.prFront < |Current(s).entries|
    ensures var oldest, pub, index' := |hist| - s.slotsUsed, Pub(s.prod, hist), SetEntry(s, e).index;
      && IndexesOk(c, index', hist, oldest, pub)
      && ConsumersOk(c, index', hist, pub, s.cons)
      && CurrentOk(c, index', s.ks, s.prFront, s.slotsUsed, pub)
  {
    hide TicketsOk, ElemsOk, LinksOk, RolesOk, OldestOk, DeliveredOk, RingOk, BlocksShaped, IndexesOk, ConsumersOk,
         CurrentOk;
    hide Num, Off, LastOf, SlotOf, IndexOk, IndexShaped, PhaseOk, ProgressOk;
    var oldest, pub, x := |hist| - s.slotsUsed, Pub(s.prod, hist), Current(s);
    var x' := x.(entries := x.entries[s.prFront := e]);
    RoomForEntry(c, s, hist, status);
    CurrentFacts(c, s.index, hist, oldest, pub);
    IndexOkShaped(c, x, hist, oldest, pub);
    EntryWritten(c, x, hist, oldest, pub, e, s.prFront);
    IndexesUpdated(c, s.index, x', hist, oldest, pub, pub);
    ConsumersKept(c, s.index, x', hist, oldest, pub, pub, s.cons, status, s.q.head);
    CurrentUpdated(c, s.index, x', s.ks, s.prFront, s.slotsUsed, pub);
  }

  lemma EntryKept(c: Config, s: State, hist: seq<nat>, status: seq<Status>)
    requires Good(c, s, hist, status) && ProdEnabled(c, s, true) && (s.prod.PEntryBase? || s.prod.PEntryBlock?)
    ensures Inv(c, ProdNext(c, s, true))
  {
    hide TicketsOk, ElemsOk, LinksOk, RolesOk, OldestOk, DeliveredOk, RingOk, BlocksShaped, IndexesOk, ConsumersOk,
         CurrentOk;
    hide Num, Off, LastOf, SlotOf, IndexOk, IndexShaped;
    var s' := ProdNext(c, s, true);
    var e := Current(s').entries[s.prFront];
    NextEntryWritten(c, s, hist, status, e);
    assert s'.index == SetEntry(s, e).index;
    assert Good(c, s', hist, status) by {
      NextEntryProgress(c, s, hist, status);
    }
  }

  lemma NextEntryProgress(c: Config, s: State, hist: seq<nat>, status: seq<Status>)
    requires Good(c, s, hist, status) && ProdEnabled(c, s, true) && (s.prod.PEntryBase? || s.prod.PEntryBlock?)
    ensures var s' := ProdNext(c, s, true);
      && PhaseOk(c, s'.prod, s'.q.tail, |hist|)
      && ProgressOk(c, s'.prod, s'.block, hist, |hist| - s.slotsUsed, s'.index, s'.ks, s'.slotsUsed, s'.prFront,
          s'.q.tail)
  {
    hide TicketsOk, ElemsOk, LinksOk, RolesOk, OldestOk, DeliveredOk, BlocksShaped, IndexesOk, ConsumersOk, CurrentOk;
    hide Num, Off;
  }

  lemma IndexOkShaped(c: Config, x: Index, hist: seq<nat>, oldest: int, pub: int)
    requires IndexOk(c, x, hist, oldest, pub)
    ensures IndexShaped(c, x)
  {
  }

  lemma CurrentFacts(c: Config, index: seq<Index>, hist: seq<nat>, oldest: int, pub: int)
    requires IndexesOk(c, index, hist, oldest, pub) && |index| > 0
    ensures IndexOk(c, index[|index| - 1], hist, oldest, pub)
  {
    hide IndexOk;
  }

  /** Moving the front to the freshly written slot adds one block and moves no other. */
  lemma FrontMoved(c: Config, x: Index, hist: seq<nat>, oldest: int, pub: int, slot: nat)
    requires IndexOk(c, x, hist, oldest, pub) && LastOf(c, x) == pub && -1 <= pub
    requires slot == (x.front + 1) % Pow2(x.ks) && slot < |x.entries| && pub + 1 - oldest < Pow2(x.ks)
    requires EntryOk(c, x.entries[slot], pub + 1, hist)
    ensures var x' := x.(front := slot);
      && IndexOk(c, x', hist, oldest, pub + 1) && LastOf(c, x') == pub + 1 && IndexShaped(c, x')
      && (forall n :: SlotOf(c, x', n) == SlotOf(c, x, n))
  {
    hide Num, Off;
    var x', size := x.(front := slot), Pow2(x.ks);
    assert LastOf(c, x') == pub + 1;
    forall n ensures SlotOf(c, x', n) == SlotOf(c, x, n) {
      ModAdd(x.front + 1, n - (pub + 1), size);
    }
    forall n | oldest <= n <= pub + 1 ensures EntryOk(c, x'.entries[SlotOf(c, x', n)], n, hist) {
      if n <= pub {
        assert EntryOk(c, x.entries[SlotOf(c, x, n)], n, hist);
      } else {
        ModUnique(slot, size, 0, slot);
      }
    }
  }

  lemma ModAdd(a: int, b: int, m: int)
    requires m > 0
    ensures (a % m + b) % m == (a + b) % m
  {
    Decompose(a, m);
    ModShift(a % m + b, a / m, m);
  }

  /** The clean new block joins the published ones. */
  lemma ElemsJoined(c: Config, block: seq<Block>, hist: seq<nat>, enqueued: seq<Elem>, status: seq<Status>, oldest: int)
    requires ElemsOk(c, block, hist, enqueued, status, Empty, oldest, |hist| - 2) && BlocksShaped(c, block)
    requires NewBlock(c, block, hist) && FlagsClear(block[hist[|hist| - 1]])
    requires |enqueued| == |status| && Num(c, |status|) == |hist| - 1 && Off(c, |status|) == 0
    ensures ElemsOk(c, block, hist, enqueued, status, Empty, oldest, |hist| - 1)
  {
    hide Num, Off, FlagAt;
    forall j | oldest <= Num(c, j) <= |hist| - 1 ensures ElemOk(c, block, hist, enqueued, status, Empty, j) {
      if Num(c, j) <= |hist| - 2 {
        assert ElemOk(c, block, hist, enqueued, status, Empty, j);
      } else {
        NumBefore(c, |status|);
        if j < |status| {
          NumMonotone(c, j, |status| - 1);
        }
      }
    }
  }

  lemma FrontFacts(c: Config, s: State, hist: seq<nat>, status: seq<Status>)
    requires Good(c, s, hist, status) && s.prod.PFront?
    ensures |s.index| > 0 && s.prFront < |Current(s).entries| && |status| == |s.enqueued| == s.q.tail
    ensures EntryOk(c, Current(s).entries[s.prFront], Pub(s.prod, hist) + 1, hist)
    ensures NewBlock(c, s.block, hist) && FlagsClear(s.block[hist[|hist| - 1]])
    ensures Num(c, s.q.tail) == |hist| - 1 && Off(c, s.q.tail) == 0
  {
    hide ElemsOk, LinksOk, RolesOk, OldestOk, DeliveredOk, BlocksShaped, IndexesOk, ConsumersOk, CurrentOk, RingOk;
    hide Num, Off, TicketsOk;
    TicketsFacts(s.q, s.enqueued, status);
  }

  lemma FrontKept(c: Config, s: State, hist: seq<nat>, status: seq<Status>)
    requires Good(c, s, hist, status) && s.prod.PFront?
    ensures ProdEnabled(c, s, true) && Inv(c, ProdNext(c, s, true))
  {
    hide TicketsOk, ElemsOk, LinksOk, RolesOk, OldestOk, DeliveredOk, RingOk, BlocksShaped, IndexesOk, ConsumersOk,
         CurrentOk;
    hide Num, Off, LastOf, SlotOf, IndexOk, IndexShaped, EntryOk, NewBlock, FlagsClear, ProgressOk;
    FrontFacts(c, s, hist, status);
    RoomForEntry(c, s, hist, status);
    var s' := ProdNext(c, s, true);
    var oldest, pub, x := |hist| - s.slotsUsed, Pub(s.prod, hist), Current(s);
    CurrentFacts(c, s.index, hist, oldest, pub);
    FrontMoved(c, x, hist, oldest, pub, s.prFront);
    var x' := x.(front := s.prFront);
    IndexOkShaped(c, x, hist, oldest, pub);
    IndexesUpdated(c, s.index, x', hist, oldest, pub, pub + 1);
    ConsumersKept(c, s.index, x', hist, oldest, pub, pub + 1, s.cons, status, s.q.head);
    ElemsJoined(c, s.block, hist, s.enqueued, status, oldest);
    CurrentAdvanced(c, s.index, x', s.ks, s.prFront, s.slotsUsed, pub);
    NothingInProgressIn(c, s', hist);
    assert Good(c, s', hist, status);
  }

  lemma CurrentAdvanced(c: Config, index: seq<Index>, x': Index, ks: nat, prFront: nat, used: nat, pub: int)
    requires CurrentOk(c, index, ks, prFront, used, pub) && |index| > 0
    requires IndexShaped(c, x') && x'.ks == ks && x'.front == prFront && LastOf(c, x') == pub + 1
    ensures CurrentOk(c, index[|index| - 1 := x'], ks, (prFront + 1) % Pow2(ks), used, pub + 1)
  {
    hide LastOf;
  }

  lemma NothingInProgressIn(c: Config, s: State, hist: seq<nat>)
    requires s.prod.PConstruct? || s.prod.PTail? || s.prod.PIdle?
    ensures ProgressOk(c, s.prod, s.block, hist, |hist| - s.slotsUsed, s.index, s.ks, s.slotsUsed, s.prFront, s.q.tail)
  {
  }

  // ---------------------------------------------------------------------
  // new_block_index
  // ---------------------------------------------------------------------

  /** The copied entry of block n is the one the old index has for it. */
  lemma GrownEntryOk(c: Config, x: Index, hist: seq<nat>, oldest: int, pub: int, prFront: nat, used: nat, n: int)
    requires IndexOk(c, x, hist, oldest, pub) && LastOf(c, x) == pub
    requires prFront == (x.front + 1) % Pow2(x.ks) && 0 < used <= Pow2(x.ks) && pub - oldest == used - 1
    requires oldest <= n <= pub
    ensures EntryOk(c, GrownEntries(x.entries, prFront, used, Pow2(x.ks + 1))[n - oldest], n, hist)
  {
    hide Num, Off, EntryOk;
    ModAdd(x.front + 1, n - oldest - used, Pow2(x.ks));
    assert EntryOk(c, x.entries[SlotOf(c, x, n)], n, hist);
  }

  /** Growing copies the ring's entries, oldest first, into an index that covers the same blocks. */
  lemma GrownIndexOk(c: Config, x: Index, hist: seq<nat>, oldest: int, pub: int, prFront: nat, used: nat)
    requires IndexOk(c, x, hist, oldest, pub) && LastOf(c, x) == pub && c.kb + x.ks + 1 <= c.w
    requires prFront == (x.front + 1) % Pow2(x.ks) && 0 < used <= Pow2(x.ks) && pub - oldest == used - 1 && 0 <= oldest
    ensures var x' := Index(x.ks + 1, used - 1, GrownEntries(x.entries, prFront, used, Pow2(x.ks + 1)));
      && IndexOk(c, x', hist, oldest, pub) && LastOf(c, x') == pub && IndexShaped(c, x')
  {
    hide Num, Off, GrownEntries;
    var x' := Index(x.ks + 1, used - 1, GrownEntries(x.entries, prFront, used, Pow2(x.ks + 1)));
    GrownEntryOk(c, x, hist, oldest, pub, prFront, used, pub);
    assert LastOf(c, x') == pub;
    forall n | oldest <= n <= pub ensures EntryOk(c, x'.entries[SlotOf(c, x', n)], n, hist) {
      ModUnique(used - 1 + n - pub, Pow2(x'.ks), 0, n - oldest);
      GrownEntryOk(c, x, hist, oldest, pub, prFront, used, n);
    }
  }

  lemma FirstIndexOk(c: Config, x': Index, hist: seq<nat>, oldest: int)
    requires IndexShaped(c, x') && x'.front == -1 && 0 <= oldest
    ensures IndexOk(c, x', hist, oldest, -1) && LastOf(c, x') == -1
  {
  }

  lemma IndexesAppended(c: Config, index: seq<Index>, x': Index, hist: seq<nat>, oldest: int, pub: int,
          cons: seq<ConsPc>)
    requires IndexesOk(c, index, hist, oldest, pub) && IndexOk(c, x', hist, oldest, pub)
    requires ConsumersOk(c, index, hist, pub, cons)
    ensures IndexesOk(c, index + [x'], hist, oldest, pub) && ConsumersOk(c, index + [x'], hist, pub, cons)
  {
    hide LastOf, SlotOf, Num, Off, IndexOk, IndexShaped;
    var index' := index + [x'];
    forall ix | 0 <= ix < |index'| ensures IndexOk(c, index'[ix], hist, oldest, pub) {
      if ix < |index| {
        assert IndexOk(c, index[ix], hist, oldest, pub);
      }
    }
    forall t | 0 <= t < |cons| ensures ConsOk(c, index', hist, pub, cons[t]) {
      assert ConsOk(c, index, hist, pub, cons[t]);
    }
  }

  lemma GrownFits(ks: nat, used: nat)
    requires used <= Pow2(ks)
    ensures used == (used - 1 + 1) % Pow2(ks + 1) && used < Pow2(ks + 1)
  {
    ModUnique(used, Pow2(ks + 1), 0, used);
  }

  /** The index that new_block_index publishes covers the ring. */
  lemma GrowOk(c: Config, s: State, hist: seq<nat>, status: seq<Status>)
    requires Good(c, s, hist, status) && ProdEnabled(c, s, true) && s.prod.PGrow?
    ensures var s' := ProdNext(c, s, true); var x' := Current(s');
      && s'.index == s.index + [x'] && IndexOk(c, x', hist, |hist| - s.slotsUsed, |hist| - 1)
      && LastOf(c, x') == |hist| - 1 && IndexShaped(c, x') && s.slotsUsed <= Pow2(s.ks)
  {
    hide TicketsOk, ElemsOk, LinksOk, RolesOk, OldestOk, DeliveredOk, BlocksShaped, IndexesOk, ConsumersOk, ProgressOk,
         PhaseOk;
    hide Num, Off;
    if |s.index| == 0 {
      FirstIndexOk(c, Current(ProdNext(c, s, true)), hist, |hist| - s.slotsUsed);
    } else if s.slotsUsed == 0 {
      FirstIndexOk(c, Current(ProdNext(c, s, true)), hist, |hist| - s.slotsUsed);
    } else {
      CurrentFacts(c, s.index, hist, |hist| - s.slotsUsed, |hist| - 1);
      GrownIndexOk(c, Current(s), hist, |hist| - s.slotsUsed, |hist| - 1, s.prFront, s.slotsUsed);
    }
  }

  lemma GrowKept(c: Config, s: State, hist: seq<nat>, status: seq<Status>)
    requires Good(c, s, hist, status) && ProdEnabled(c, s, true) && s.prod.PGrow?
    ensures Inv(c, ProdNext(c, s, true))
  {
    hide TicketsOk, ElemsOk, LinksOk, RolesOk, OldestOk, DeliveredOk, RingOk, BlocksShaped, IndexesOk, ConsumersOk;
    hide Num, Off, LastOf, SlotOf, IndexOk, IndexShaped;
    var s' := ProdNext(c, s, true);
    GrowOk(c, s, hist, status);
    IndexesAppended(c, s.index, Current(s'), hist, |hist| - s.slotsUsed, |hist| - 1, s.cons);
    GrownFits(s.ks, s.slotsUsed);
    assert Good(c, s', hist, status);
  }

  // ---------------------------------------------------------------------
  // Consumers
  // ---------------------------------------------------------------------

  /** Everything below the tail lies in a published block. */
  lemma BelowTailPublished(c: Config, s: State, hist: seq<nat>, j: int)
    requires PhaseOk(c, s.prod, s.q.tail, |hist|) && j < s.q.tail
    ensures Num(c, j) <= Pub(s.prod, hist)
  {
    NumBefore(c, s.q.tail);
    NumMonotone(c, j, s.q.tail - 1);
  }

  lemma TicketPhaseKept(c: Config, s: State, hist: seq<nat>, status: seq<Status>, t: Thread, q': Tickets.State)
    requires Good(c, s, hist, status) && t < |s.cons| && s.cons[t] == CNone
    requires Tickets.Inv(q') && q'.tail == s.q.tail && q'.head == s.q.head
    requires t < |s.q.pc| && |q'.pc| == |s.q.pc| && q'.pc == s.q.pc[t := q'.pc[t]] && LinkOk(CNone, q'.pc[t])
    ensures Inv(c, s.(q := q'))
  {
    hide IndexesOk, ElemsOk, ConsumersOk, RolesOk, OldestOk, CurrentOk, RingOk, BlocksShaped, ProgressOk, PhaseOk, Num,
         Off, Tickets.Inv;
    assert Good(c, s.(q := q'), hist, status);
  }

  /** The status of the elements of a new claim. */
  function TakenBy(status: seq<Status>, t: Thread, first: nat, last: nat): (r: seq<Status>)
    requires first <= last <= |status|
    ensures |r| == |status|
  {
    seq(|status|, j requires 0 <= j < |status| => if first <= j < last then Taken(t) else status[j])
  }

  lemma RolesTaken(cons: seq<ConsPc>, status: seq<Status>, head: int, t: Thread, last: int)
    requires RolesOk(cons, status, head) && t < |cons| && cons[t] == CNone && 0 <= head < last <= |status|
    ensures RolesOk(cons[t := CLoadIndex(head, last)], TakenBy(status, t, head, last), last)
  {
    var cons', status' := cons[t := CLoadIndex(head, last)], TakenBy(status, t, head, last);
    forall u, j | 0 <= u < |cons'| && 0 <= j < |status'| ensures RoleOk(cons'[u], u, status'[j], j) {
      assert RoleOk(cons[u], u, status[j], j) && RoleOk(cons[t], t, status[j], j);
    }
  }

  lemma ElemsTaken(c: Config, block: seq<Block>, hist: seq<nat>, enqueued: seq<Elem>, status: seq<Status>,
                   pending: Cell, oldest: int, pub: int, t: Thread, head: nat, last: nat)
    requires ElemsOk(c, block, hist, enqueued, status, pending, oldest, pub) && head <= last <= |status|
    requires forall j :: head <= j < last ==> status[j] == Waiting
    ensures ElemsOk(c, block, hist, enqueued, TakenBy(status, t, head, last), pending, oldest, pub)
  {
    hide Num, Off, FlagAt;
    forall j | oldest <= Num(c, j) <= pub
      ensures ElemOk(c, block, hist, enqueued, TakenBy(status, t, head, last), pending, j)
    {
      assert ElemOk(c, block, hist, enqueued, status, pending, j);
    }
  }

  lemma StatusTaken(c: Config, cons: seq<ConsPc>, delivered: map<int, Elem>, enqueued: seq<Elem>, status: seq<Status>,
                    oldest: int, t: Thread, head: nat, last: nat)
    requires RolesOk(cons, status, head) && OldestOk(c, status, oldest) && DeliveredOk(delivered, enqueued, status)
    requires head <= last <= |status|
    ensures OldestOk(c, TakenBy(status, t, head, last), oldest)
    ensures DeliveredOk(delivered, enqueued, TakenBy(status, t, head, last))
    ensures forall j :: head <= j < last ==> status[j] == Waiting
  {
    hide Num;
  }

  lemma ClaimKept(c: Config, s: State, hist: seq<nat>, status: seq<Status>, t: Thread)
    requires Good(c, s, hist, status) && ConsEnabled(c, s, t) && s.cons[t] == CNone
    requires s.q.pc[t].ClaimHead? && s.q.pc[t].actual > 0
    ensures Inv(c, ConsNext(c, s, t))
  {
    hide IndexesOk, ElemsOk, ConsumersOk, RolesOk, OldestOk, CurrentOk, RingOk, BlocksShaped, ProgressOk, PhaseOk, Num,
         Off;
    hide DeliveredOk, Tickets.Inv, TicketsOk;
    var s', oldest, pub := ConsNext(c, s, t), |hist| - s.slotsUsed, Pub(s.prod, hist);
    TicketsFacts(s.q, s.enqueued, status);
    Tickets.StepKeepsInv(s.q, Tickets.Continue(t));
    Tickets.GrantedFits(s.q, t);
    var head, last := s.q.head, s.q.head + s.q.pc[t].actual;
    StatusTaken(c, s.cons, s.delivered, s.enqueued, status, oldest, t, head, last);
    RolesTaken(s.cons, status, head, t, last);
    ElemsTaken(c, s.block, hist, s.enqueued, status, Pending(s.prod), oldest, pub, t, head, last);
    BelowTailPublished(c, s, hist, last - 1);
    ConsumersSet(c, s.index, hist, pub, s.cons, t, CLoadIndex(head, last));
    TicketsOkHolds(s'.q, s.enqueued, TakenBy(status, t, head, last));
    assert Good(c, s', hist, TakenBy(status, t, head, last));
  }

  lemma TicketsOkHolds(q: Tickets.State, enqueued: seq<Elem>, status: seq<Status>)
    requires Tickets.Inv(q) && |status| == |enqueued| == q.tail
    ensures TicketsOk(q, enqueued, status)
  {
  }

  lemma ConsumersSet(c: Config, index: seq<Index>, hist: seq<nat>, pub: int, cons: seq<ConsPc>, t: Thread, p: ConsPc)
    requires ConsumersOk(c, index, hist, pub, cons) && t < |cons| && ConsOk(c, index, hist, pub, p)
    ensures ConsumersOk(c, index, hist, pub, cons[t := p])
  {
    hide ConsOk;
  }

  // ---------------------------------------------------------------------
  // Finding the block
  // ---------------------------------------------------------------------

  /** The masked computation adds the distance in blocks. */
  lemma MaskedDistance(c: Config, ks: nat, f: nat, base: int, i: int)
    requires c.kb + ks <= c.w && Off(c, base) == 0
    ensures MaskedSlot(c.w, c.kb, ks, f, Word(c.w, base), Word(c.w, i)) == (f + (Num(c, i) - Num(c, base))) % Pow2(ks)
  {
    MaskedSlotFindsBlock(c.w, c.kb, ks, f, base, i);
    BlocksBetween(c, base, i);
    hide MaskedSlot, Word, BlockBase, Num, Pow2;
  }

  /** The masked slot of an element, from the slot and base of some entry of the same index. */
  lemma SlotFound(c: Config, x: Index, f: nat, base: int, i: int)
    requires IndexShaped(c, x) && Off(c, base) == 0 && f == SlotOf(c, x, Num(c, base))
    ensures MaskedSlot(c.w, c.kb, x.ks, f, Word(c.w, base), Word(c.w, i)) == SlotOf(c, x, Num(c, i))
  {
    hide MaskedSlot, Word, Num, Off, LastOf, Pow2;
    MaskedDistance(c, x.ks, f, base, i);
    SlotShift(x.front - LastOf(c, x), Num(c, base), Num(c, i), Pow2(x.ks));
  }

  lemma SlotShift(start: int, n: int, m: int, size: int)
    requires size > 0
    ensures ((start + n) % size + (m - n)) % size == (start + m) % size
  {
    ModAdd(start + n, m - n, size);
  }

  lemma BlocksBetween(c: Config, base: int, i: int)
    requires Off(c, base) == 0
    ensures (BlockBase(BlockSize(c), i) - base) / BlockSize(c) == Num(c, i) - Num(c, base)
  {
    var bs := BlockSize(c);
    BaseMultiple(bs, i);
    Decompose(base, bs);
    MulSub(Num(c, i), Num(c, base), bs);
    ModUnique(BlockBase(bs, i) - base, bs, Num(c, i) - Num(c, base), 0);
  }

  /** Facts about a loading consumer's next element. */
  lemma LoadFacts(c: Config, s: State, hist: seq<nat>, status: seq<Status>, t: Thread)
    requires Good(c, s, hist, status) && t < |s.cons| && Loading(s.cons[t])
    ensures ConsOk(c, s.index, hist, Pub(s.prod, hist), s.cons[t])
    ensures 0 <= s.cons[t].i < s.cons[t].last
    ensures 0 <= |hist| - s.slotsUsed <= Num(c, s.cons[t].i) <= Num(c, s.cons[t].last - 1) <= Pub(s.prod, hist)
    ensures |s.index| > 0 && Knows(c, s.index, |s.index| - 1, s.cons[t].last)
    ensures forall ix :: 0 <= ix < |s.index| ==> IndexOk(c, s.index[ix], hist, |hist| - s.slotsUsed, Pub(s.prod, hist))
  {
    hide TicketsOk, ElemsOk, LinksOk, RolesOk, OldestOk, DeliveredOk, BlocksShaped, ProgressOk, PhaseOk, Num, Off,
         LastOf, SlotOf;
    hide IndexOk;
    var p := s.cons[t];
    assert ConsOk(c, s.index, hist, Pub(s.prod, hist), p);
    HeldInRing(c, s.cons, status, s.q.head, |hist| - s.slotsUsed, t, p.i);
    HeldInRing(c, s.cons, status, s.q.head, |hist| - s.slotsUsed, t, p.last - 1);
    NumMonotone(c, p.i, p.last - 1);
    NumNonnegative(c, p.i);
    TicketsFacts(s.q, s.enqueued, status);
    BelowTailPublished(c, s, hist, p.last - 1);
  }

  /** Each loading step can be taken, and the consumer again knows what it needs. */
  lemma LoadStepOk(c: Config, index: seq<Index>, hist: seq<nat>, oldest: int, pub: int, p: ConsPc)
    requires Loading(p) && ConsOk(c, index, hist, pub, p)
    requires |index| > 0 && Knows(c, index, |index| - 1, p.last)
    requires oldest <= Num(c, p.i) <= Num(c, p.last - 1) && 0 <= Num(c, p.i)
    requires p.CLoadIndex? || (p.ix < |index| && IndexOk(c, index[p.ix], hist, oldest, pub))
    ensures LoadEnabled(c, index, p)
    ensures ConsOk(c, index, hist, pub, LoadNext(c, index, p))
  {
    match p
    case CLoadIndex(i, last) =>
    case CLoadFront(ix, i, last) =>
      hide Num, Off;
      ModUnique(index[ix].front, Pow2(index[ix].ks), 0, index[ix].front);
    case CLoadBase(ix, f, i, last) =>
      SlotStepOk(c, index, hist, pub, p);
    case CLoadBlock(ix, slot, i, last) =>
      BlockStepOk(c, index, hist, oldest, pub, p);
  }

  lemma SlotStepOk(c: Config, index: seq<Index>, hist: seq<nat>, pub: int, p: ConsPc)
    requires p.CLoadBase? && ConsOk(c, index, hist, pub, p)
    ensures LoadEnabled(c, index, p) && ConsOk(c, index, hist, pub, LoadNext(c, index, p))
  {
    SlotFound(c, index[p.ix], p.front, index[p.ix].entries[p.front].base, p.i);
    hide Num, Off, MaskedSlot, SlotOf, LastOf;
  }

  lemma BlockStepOk(c: Config, index: seq<Index>, hist: seq<nat>, oldest: int, pub: int, p: ConsPc)
    requires p.CLoadBlock? && ConsOk(c, index, hist, pub, p)
    requires oldest <= Num(c, p.i) <= Num(c, p.last - 1)
    requires p.ix < |index| && IndexOk(c, index[p.ix], hist, oldest, pub)
    ensures LoadEnabled(c, index, p) && ConsOk(c, index, hist, pub, LoadNext(c, index, p))
  {
    EndInBlockOk(c, p.i, p.last);
    hide Num, Off, SlotOf, LastOf, EndInBlock;
    assert EntryOk(c, index[p.ix].entries[p.slot], Num(c, p.i), hist);
  }

  /** After its step, a loading consumer again knows what it needs. */
  lemma LoadOk(c: Config, s: State, hist: seq<nat>, status: seq<Status>, t: Thread)
    requires Good(c, s, hist, status) && t < |s.cons| && Loading(s.cons[t])
    ensures LoadEnabled(c, s.index, s.cons[t])
    ensures ConsOk(c, s.index, hist, Pub(s.prod, hist), LoadNext(c, s.index, s.cons[t]))
  {
    LoadFacts(c, s, hist, status, t);
    hide Good, Num, Off, LastOf, SlotOf, IndexOk, LoadNext;
    LoadStepOk(c, s.index, hist, |hist| - s.slotsUsed, Pub(s.prod, hist), s.cons[t]);
  }

  lemma RolesSame(cons: seq<ConsPc>, status: seq<Status>, head: int, t: Thread, p: ConsPc)
    requires RolesOk(cons, status, head) && t < |cons|
    requires forall j :: Unread(p, j) == Unread(cons[t], j) && Unflagged(p, j) == Unflagged(cons[t], j)
    ensures RolesOk(cons[t := p], status, head)
  {
    var cons' := cons[t := p];
    forall u, j | 0 <= u < |cons'| && 0 <= j < |status| ensures RoleOk(cons'[u], u, status[j], j) {
      assert RoleOk(cons[u], u, status[j], j);
    }
  }

  lemma LoadKept(c: Config, s: State, hist: seq<nat>, status: seq<Status>, t: Thread)
    requires Good(c, s, hist, status) && ConsEnabled(c, s, t) && Loading(s.cons[t])
    ensures Inv(c, ConsNext(c, s, t))
  {
    hide IndexesOk, ElemsOk, ConsumersOk, RolesOk, OldestOk, CurrentOk, RingOk, BlocksShaped, ProgressOk, PhaseOk, Num,
         Off;
    hide DeliveredOk, TicketsOk, ConsOk, MaskedSlot;
    LoadOk(c, s, hist, status, t);
    var s' := ConsNext(c, s, t);
    RolesSame(s.cons, status, s.q.head, t, s'.cons[t]);
    ConsumersSet(c, s.index, hist, Pub(s.prod, hist), s.cons, t, s'.cons[t]);
    assert Good(c, s', hist, status);
  }

  // ---------------------------------------------------------------------
  // Emptying the block
  // ---------------------------------------------------------------------

  /** Two positions in the ring that are not the same are different cells. */
  lemma CellsDiffer(c: Config, block: seq<Block>, tailBlock: Ptr, hist: seq<nat>, used: nat, i: int, j: int)
    requires RingOk(block, tailBlock, hist, used) && i != j
    requires |hist| - used <= Num(c, i) < |hist| && |hist| - used <= Num(c, j) < |hist|
    ensures hist[Num(c, i)] != hist[Num(c, j)] || Off(c, i) != Off(c, j)
  {
    hide Num, Off;
    if Num(c, i) == Num(c, j) && Off(c, i) == Off(c, j) {
      SamePosition(c, i, j);
    }
  }

  /** Changing cell and flag of element i, as its status demands, keeps all elements right. */
  lemma ElemChanged(c: Config, block: seq<Block>, tailBlock: Ptr, hist: seq<nat>, used: nat, r: Block,
                    enqueued: seq<Elem>, status: seq<Status>, pending: Cell, pub: int, i: nat, g: Status)
    requires RingOk(block, tailBlock, hist, used) && pub < |hist|
    requires ElemsOk(c, block, hist, enqueued, status, pending, |hist| - used, pub)
    requires i < |status| && |hist| - used <= Num(c, i) <= pub
    requires hist[Num(c, i)] < |block|
    requires var b := block[hist[Num(c, i)]];
      && Off(c, i) < |b.cells| && FlagAt(c, i) < |b.flags|
      && r.cells == b.cells[Off(c, i) := Content(enqueued, status[i := g], pending, i)]
      && r.flags == b.flags[FlagAt(c, i) := (g == Done)]
    ensures ElemsOk(c, block[hist[Num(c, i)] := r], hist, enqueued, status[i := g], pending, |hist| - used, pub)
  {
    hide Num, Off;
    var block' := block[hist[Num(c, i)] := r];
    forall j | |hist| - used <= Num(c, j) <= pub ensures ElemOk(c, block', hist, enqueued, status[i := g], pending, j) {
      assert ElemOk(c, block, hist, enqueued, status, pending, j);
      if j != i {
        CellsDiffer(c, block, tailBlock, hist, used, i, j);
      }
    }
  }

  /** One element of consumer t moves on, and so does the consumer. */
  lemma RolesMoved(cons: seq<ConsPc>, status: seq<Status>, head: int, t: Thread, p: ConsPc, i: nat, g: Status)
    requires RolesOk(cons, status, head) && t < |cons| && i < |status|
    requires status[i] == Taken(t) || status[i] == Moved(t)
    requires g == Moved(t) || g == Done
    requires forall j :: Unread(p, j) == (j != i && Unread(cons[t], j))
    requires forall j :: Unflagged(p, j) == (if j == i then g == Moved(t) else Unflagged(cons[t], j))
    ensures RolesOk(cons[t := p], status[i := g], head)
  {
    var cons', status' := cons[t := p], status[i := g];
    forall u, j | 0 <= u < |cons'| && 0 <= j < |status'| ensures RoleOk(cons'[u], u, status'[j], j) {
      assert RoleOk(cons[u], u, status[j], j);
    }
  }

  /** Writing cells or setting flags of a published block does not disturb a block start in progress. */
  lemma ProgressKept(c: Config, p: ProdPc, block: seq<Block>, tailBlock: Ptr, hist: seq<nat>, used: nat,
          index: seq<Index>,
          ks: nat, prFront: nat, tail: int, n: int, r: Block)
    requires ProgressOk(c, p, block, hist, |hist| - used, index, ks, used, prFront, tail)
    requires RingOk(block, tailBlock, hist, used) && |hist| - used <= n <= Pub(p, hist) && 0 <= n
    requires |r.flags| == |block[hist[n]].flags|
    requires forall i :: 0 <= i < |r.flags| ==> block[hist[n]].flags[i] ==> r.flags[i]
    ensures ProgressOk(c, p, block[hist[n] := r], hist, |hist| - used, index, ks, used, prFront, tail)
  {
    assert Unpublished(p) ==> hist[n] != hist[|hist| - 1];
  }

  lemma ShapeKept(c: Config, block: seq<Block>, b: nat, r: Block)
    requires BlocksShaped(c, block) && b < |block| && |r.flags| == BlockSize(c) && |r.cells| == BlockSize(c)
    ensures BlocksShaped(c, block[b := r])
  {
  }

  /** The element a consumer is working on, and the block it has found for it. */
  function Target(p: ConsPc): int
    requires p.CRead? || p.CFlag?
  {
    if p.CRead? then p.i else p.f - 1
  }

  lemma WorkFacts(c: Config, s: State, hist: seq<nat>, status: seq<Status>, t: Thread)
    requires Good(c, s, hist, status) && t < |s.cons| && (s.cons[t].CRead? || s.cons[t].CFlag?)
    ensures var p, j, oldest, pub := s.cons[t], Target(s.cons[t]), |hist| - s.slotsUsed, Pub(s.prod, hist);
      && 0 <= j < |status| == |s.enqueued| && status[j] == (if p.CRead? then Taken(t) else Moved(t))
      && 0 <= oldest <= Num(c, j) <= pub < |hist| && p.block == hist[Num(c, j)] && p.block < |s.block|
      && Num(c, j) == Num(c, p.lo)
      && ConsOk(c, s.index, hist, pub, p) && ElemOk(c, s.block, hist, s.enqueued, status, Pending(s.prod), j)
  {
    hide TicketsOk, LinksOk, RolesOk, OldestOk, DeliveredOk, BlocksShaped, ProgressOk, PhaseOk, CurrentOk, IndexesOk;
    hide Num, Off, LastOf, SlotOf, IndexShaped;
    var p, j := s.cons[t], Target(s.cons[t]);
    var oldest, pub := |hist| - s.slotsUsed, Pub(s.prod, hist);
    assert ConsOk(c, s.index, hist, pub, p);
    HeldInRing(c, s.cons, status, s.q.head, oldest, t, j);
    NumMonotone(c, p.lo, j);
    NumMonotone(c, j, p.hi - 1);
    TicketsFacts(s.q, s.enqueued, status);
    BelowTailPublished(c, s, hist, j);
    assert ElemOk(c, s.block, hist, s.enqueued, status, Pending(s.prod), j);
  }

  lemma StatusMoved(c: Config, delivered: map<int, Elem>, enqueued: seq<Elem>, status: seq<Status>, oldest: int, i: nat,
                    t: Thread, v: Elem)
    requires OldestOk(c, status, oldest) && DeliveredOk(delivered, enqueued, status) && i < |status|
        && status[i] == Taken(t)
    requires v == enqueued[i]
    ensures OldestOk(c, status[i := Moved(t)], oldest)
    ensures DeliveredOk(delivered[i := v], enqueued, status[i := Moved(t)])
  {
    hide Num;
  }

  lemma StatusDone(c: Config, delivered: map<int, Elem>, enqueued: seq<Elem>, status: seq<Status>, oldest: int, i: nat,
          t: Thread)
    requires OldestOk(c, status, oldest) && DeliveredOk(delivered, enqueued, status) && i < |status|
        && status[i] == Moved(t)
    ensures OldestOk(c, status[i := Done], oldest)
    ensures DeliveredOk(delivered, enqueued, status[i := Done])
  {
    hide Num;
  }

  /** What the emptying of one cell or the setting of one flag does to the blocks. */
  lemma BlockWritten(c: Config, s: State, hist: seq<nat>, status: seq<Status>, t: Thread, r: Block, g: Status)
    requires Good(c, s, hist, status) && t < |s.cons| && (s.cons[t].CRead? || s.cons[t].CFlag?)
    requires s.cons[t].block < |s.block|
    requires var b, j := s.block[s.cons[t].block], Target(s.cons[t]);
      && r.next == b.next && 0 <= j && Off(c, j) < |b.cells| && FlagAt(c, j) < |b.flags|
      && (if s.cons[t].CRead? then g == Moved(t) && r.flags == b.flags && r.cells == b.cells[Off(c, j) := Empty]
          else g == Done && r.cells == b.cells && r.flags == b.flags[FlagAt(c, j) := true])
    ensures var block', j := s.block[s.cons[t].block := r], Target(s.cons[t]);
      && 0 <= j < |status|
      && RingOk(block', s.tailBlock, hist, s.slotsUsed) && BlocksShaped(c, block')
      && ElemsOk(c, block', hist, s.enqueued, status[j := g], Pending(s.prod), |hist| - s.slotsUsed, Pub(s.prod, hist))
      && ProgressOk(c, s.prod, block', hist, |hist| - s.slotsUsed, s.index, s.ks, s.slotsUsed, s.prFront, s.q.tail)
  {
    hide TicketsOk, LinksOk, RolesOk, OldestOk, DeliveredOk, PhaseOk, CurrentOk, IndexesOk, ElemsOk, ConsumersOk,
         RingOk, ProgressOk, ConsOk;
    hide Num, Off;
    WorkFacts(c, s, hist, status, t);
    var j, n := Target(s.cons[t]), s.cons[t].block;
    RingLinksOnly(s.block, s.block[n := r], s.tailBlock, hist, s.slotsUsed);
    ShapeKept(c, s.block, n, r);
    var b := s.block[n];
    assert b.flags[FlagAt(c, j) := b.flags[FlagAt(c, j)]] == b.flags
        && b.cells[Off(c, j) := b.cells[Off(c, j)]] == b.cells;
    ElemChanged(c, s.block, s.tailBlock, hist, s.slotsUsed, r, s.enqueued, status, Pending(s.prod), Pub(s.prod, hist),
        j, g);
    ProgressKept(c, s.prod, s.block, s.tailBlock, hist, s.slotsUsed, s.index, s.ks, s.prFront, s.q.tail, Num(c, j), r);
  }

  lemma ReadStepOk(c: Config, index: seq<Index>, hist: seq<nat>, pub: int, p: ConsPc)
    requires p.CRead? && ConsOk(c, index, hist, pub, p)
    ensures ConsOk(c, index, hist, pub, if p.i + 1 < p.hi then p.(i := p.i + 1)
                                        else CFlag(p.ix, p.slot, p.block, p.lo, p.hi, p.hi, p.last))
  {
    hide Num, Off, LastOf, SlotOf, IndexShaped;
  }

  lemma ReadKept(c: Config, s: State, hist: seq<nat>, status: seq<Status>, t: Thread)
    requires Good(c, s, hist, status) && ConsEnabled(c, s, t) && s.cons[t].CRead?
    ensures Inv(c, ConsNext(c, s, t))
  {
    hide TicketsOk, LinksOk, RolesOk, OldestOk, DeliveredOk, PhaseOk, CurrentOk, IndexesOk, ElemsOk, ConsumersOk,
         RingOk, ProgressOk, ConsOk;
    hide Num, Off, BlocksShaped;
    WorkFacts(c, s, hist, status, t);
    var s', p := ConsNext(c, s, t), s.cons[t];
    var i := p.i;
    BlockWritten(c, s, hist, status, t, s'.block[p.block], Moved(t));
    StatusMoved(c, s.delivered, s.enqueued, status, |hist| - s.slotsUsed, i, t,
        s.block[p.block].cells[Off(c, i)].value);
    ReadStepOk(c, s.index, hist, Pub(s.prod, hist), p);
    ConsumersSet(c, s.index, hist, Pub(s.prod, hist), s.cons, t, s'.cons[t]);
    ReadBounds(c, s.index, hist, Pub(s.prod, hist), p);
    RolesMoved(s.cons, status, s.q.head, t, s'.cons[t], i, Moved(t));
    SameLength(s.q, s.enqueued, status, status[i := Moved(t)]);
    LinksSame(s.cons, s.q.pc, t, s'.cons[t]);
    assert Good(c, s', hist, status[i := Moved(t)]);
  }

  lemma ReadBounds(c: Config, index: seq<Index>, hist: seq<nat>, pub: int, p: ConsPc)
    requires p.CRead? && ConsOk(c, index, hist, pub, p)
    ensures p.lo <= p.i < p.hi <= p.last
  {
  }

  lemma SameLength(q: Tickets.State, enqueued: seq<Elem>, status: seq<Status>, status': seq<Status>)
    requires TicketsOk(q, enqueued, status) && |status'| == |status|
    ensures TicketsOk(q, enqueued, status')
  {
    hide Tickets.Inv;
  }

  lemma LinksSame(cons: seq<ConsPc>, qpc: seq<Tickets.Pc>, t: Thread, p: ConsPc)
    requires LinksOk(cons, qpc) && t < |cons| && cons[t] != CNone && p != CNone
    ensures LinksOk(cons[t := p], qpc)
  {
  }

  /** After setting a flag the consumer goes on in its block, turns to the next one, or is finished. */
  function AfterFlag(index: seq<Index>, p: ConsPc): ConsPc
    requires p.CFlag? && p.ix < |index|
  {
    if p.f - 1 > p.lo then p.(f := p.f - 1)
    else if p.hi < p.last then CLoadBlock(p.ix, (p.slot + 1) % Pow2(index[p.ix].ks), p.hi, p.last)
    else CNone
  }

  lemma FlagStepOk(c: Config, index: seq<Index>, hist: seq<nat>, pub: int, p: ConsPc)
    requires p.CFlag? && ConsOk(c, index, hist, pub, p)
    ensures p.ix < |index| && ConsOk(c, index, hist, pub, AfterFlag(index, p))
  {
    if p.f - 1 <= p.lo && p.hi < p.last {
      NumBefore(c, p.hi);
      var x := index[p.ix];
      ModAdd(x.front + Num(c, p.lo) - LastOf(c, x), 1, Pow2(x.ks));
    }
    hide Num, Off, LastOf, IndexShaped;
  }

  lemma FlagRoles(cons: seq<ConsPc>, status: seq<Status>, head: int, t: Thread, index: seq<Index>)
    requires RolesOk(cons, status, head) && t < |cons| && cons[t].CFlag? && cons[t].ix < |index|
    requires cons[t].lo < cons[t].f <= cons[t].hi <= cons[t].last
    requires 0 <= cons[t].f - 1 < |status| && status[cons[t].f - 1] == Moved(t)
    ensures RolesOk(cons[t := AfterFlag(index, cons[t])], status[cons[t].f - 1 := Done], head)
  {
    RolesMoved(cons, status, head, t, AfterFlag(index, cons[t]), cons[t].f - 1, Done);
  }

  lemma FlagKept(c: Config, s: State, hist: seq<nat>, status: seq<Status>, t: Thread)
    requires Good(c, s, hist, status) && ConsEnabled(c, s, t) && s.cons[t].CFlag?
    ensures Inv(c, ConsNext(c, s, t))
  {
    hide TicketsOk, LinksOk, RolesOk, OldestOk, DeliveredOk, PhaseOk, CurrentOk, IndexesOk, ElemsOk, ConsumersOk,
         RingOk, ProgressOk;
    hide Num, Off, BlocksShaped, PartOk, Tickets.Inv;
    WorkFacts(c, s, hist, status, t);
    var s', p := ConsNext(c, s, t), s.cons[t];
    var j := p.f - 1;
    BlockWritten(c, s, hist, status, t, s'.block[p.block], Done);
    StatusDone(c, s.delivered, s.enqueued, status, |hist| - s.slotsUsed, j, t);
    FlagStepOk(c, s.index, hist, Pub(s.prod, hist), p);
    ConsumersSet(c, s.index, hist, Pub(s.prod, hist), s.cons, t, AfterFlag(s.index, p));
    FlagBounds(c, s.index, hist, Pub(s.prod, hist), p);
    FlagRoles(s.cons, status, s.q.head, t, s.index);
    FlagTickets(s, status, t);
    SameLength(s'.q, s.enqueued, status, status[j := Done]);
    assert s'.cons == s.cons[t := AfterFlag(s.index, p)];
    assert Good(c, s', hist, status[j := Done]);
  }

  lemma FlagBounds(c: Config, index: seq<Index>, hist: seq<nat>, pub: int, p: ConsPc)
    requires p.CFlag? && ConsOk(c, index, hist, pub, p)
    ensures p.lo < p.f <= p.hi <= p.last
  {
  }

  /** The last flag of a claim ends the thread's operation; nothing else happens to the tickets. */
  lemma FlagTickets(s: State, status: seq<Status>, t: Thread)
    requires TicketsOk(s.q, s.enqueued, status) && LinksOk(s.cons, s.q.pc)
    requires t < |s.cons| && s.cons[t].CFlag? && s.cons[t].ix < |s.index|
    ensures t < |s.q.pc| && s.q.pc[t] != Tickets.Idle
    ensures var p := AfterFlag(s.index, s.cons[t]);
            var q' := if p == CNone then Tickets.Next(s.q, Tickets.Continue(t)) else s.q;
            TicketsOk(q', s.enqueued, status) && LinksOk(s.cons[t := p], q'.pc) && q'.head == s.q.head
                && q'.tail == s.q.tail
  {
    hide Tickets.Inv;
    assert LinkOk(s.cons[t], s.q.pc[t]);
    Tickets.StepKeepsInv(s.q, Tickets.Continue(t));
  }

  // ---------------------------------------------------------------------
  // Every step
  // ---------------------------------------------------------------------

  lemma TicketStepKept(c: Config, s: State, hist: seq<nat>, status: seq<Status>, t: Thread)
    requires Good(c, s, hist, status) && ConsEnabled(c, s, t) && s.cons[t] == CNone
    ensures Inv(c, ConsNext(c, s, t))
  {
    hide TicketsOk, IndexesOk, ElemsOk, ConsumersOk, RolesOk, OldestOk, CurrentOk, RingOk, BlocksShaped, ProgressOk,
         PhaseOk;
    hide Num, Off, Tickets.Inv, DeliveredOk;
    if s.q.pc[t].ClaimHead? && s.q.pc[t].actual > 0 {
      ClaimKept(c, s, hist, status, t);
    } else {
      TicketsFacts(s.q, s.enqueued, status);
      Tickets.StepKeepsInv(s.q, Tickets.Continue(t));
      TicketPhaseKept(c, s, hist, status, t, Tickets.Next(s.q, Tickets.Continue(t)));
    }
  }

  lemma CallKept(c: Config, s: State, hist: seq<nat>, status: seq<Status>, t: Thread, req: Tickets.Request)
    requires Good(c, s, hist, status) && Enabled(c, s, Call(t, req))
    ensures Inv(c, Next(c, s, Call(t, req)))
  {
    hide TicketsOk, IndexesOk, ElemsOk, ConsumersOk, RolesOk, OldestOk, CurrentOk, RingOk, BlocksShaped, ProgressOk,
         PhaseOk;
    hide Num, Off, Tickets.Inv, DeliveredOk;
    TicketsFacts(s.q, s.enqueued, status);
    Tickets.StepKeepsInv(s.q, Tickets.Call(t, req));
    TicketPhaseKept(c, s, hist, status, t, Tickets.Next(s.q, Tickets.Call(t, req)));
  }

  lemma ProduceKept(c: Config, s: State, hist: seq<nat>, status: seq<Status>, ok: bool)
    requires Good(c, s, hist, status) && ProdEnabled(c, s, ok)
    ensures Inv(c, ProdNext(c, s, ok))
  {
    hide Good, Inv;
    match s.prod
    case PScan(_, _) => PrepareKept(c, s, hist, status, ok);
    case PCheckRoom(_) => PrepareKept(c, s, hist, status, ok);
    case PGrow(_) => if ok { GrowKept(c, s, hist, status); } else { PrepareKept(c, s, hist, status, ok); }
    case PRequisition(_) => if ok { RequisitionKept(c, s, hist, status); } else { PrepareKept(c, s, hist, status, ok); }
    case PReset(_, _) => ResetKept(c, s, hist, status);
    case PEntryBase(_) => EntryKept(c, s, hist, status);
    case PEntryBlock(_) => EntryKept(c, s, hist, status);
    case PFront(_) => FrontKept(c, s, hist, status);
    case PConstruct(_) => ConstructKept(c, s, hist, status);
    case PTail(_) => TailKept(c, s, hist, status);
  }

  /** Every step of the producer and of every consumer keeps the invariant. */
  lemma StepKeepsInv(c: Config, s: State, a: Action)
    requires Inv(c, s) && Enabled(c, s, a)
    ensures Inv(c, Next(c, s, a))
  {
    var hist: seq<nat>, status: seq<Status> :| Good(c, s, hist, status);
    hide Good, Inv;
    match a
    case Enqueue(v) => StartKept(c, s, hist, status, v);
    case Produce(ok) => ProduceKept(c, s, hist, status, ok);
    case Call(t, req) => CallKept(c, s, hist, status, t, req);
    case Consume(t) =>
      match s.cons[t]
      case CNone => TicketStepKept(c, s, hist, status, t);
      case CRead(_, _, _, _, _, _, _) => ReadKept(c, s, hist, status, t);
      case CFlag(_, _, _, _, _, _, _) => FlagKept(c, s, hist, status, t);
      case _ => LoadKept(c, s, hist, status, t);
  }

  // ---------------------------------------------------------------------
  // Whole runs
  // ---------------------------------------------------------------------

  /** states[0], states[1], ... is an interleaving of one producer and any number of consumers. */
  ghost predicate IsRun(c: Config, states: seq<State>, actions: seq<Action>)
  {
    && |states| == |actions| + 1
    && Init(c, states[0])
    && forall i :: 0 <= i < |actions| ==>
        Enabled(c, states[i], actions[i]) && states[i + 1] == Next(c, states[i], actions[i])
  }

  lemma {:induction false} RunKeepsInv(c: Config, states: seq<State>, actions: seq<Action>, i: nat)
    requires IsRun(c, states, actions) && i < |states|
    ensures Inv(c, states[i])
  {
    hide Inv, Init;
    if i == 0 {
      InitHasInv(c, states[0]);
    } else {
      RunKeepsInv(c, states, actions, i - 1);
      StepKeepsInv(c, states[i - 1], actions[i - 1]);
    }
  }

  lemma RunGood(c: Config, states: seq<State>, actions: seq<Action>, i: nat)
      returns (hist: seq<nat>, status: seq<Status>)
    requires IsRun(c, states, actions) && i < |states|
    ensures Good(c, states[i], hist, status)
  {
    hide Good, IsRun;
    RunKeepsInv(c, states, actions, i);
    hist, status :| Good(c, states[i], hist, status);
  }

  /** Some consumer has won element j and not yet moved it out. */
  ghost predicate Awaited(s: State, j: int)
  {
    exists t :: 0 <= t < |s.cons| && Unread(s.cons[t], j)
  }

  /**
   First in, first out, in every reachable state: the claims made so far follow each other
   without gap from index 0 to the head; every claimed index has either been delivered or is
   awaited by the consumer that claimed it; and what was delivered for index j is the j-th
   element enqueued. So the k-th claim gets the k-th elements.
   */
  lemma FirstInFirstOut(c: Config, states: seq<State>, actions: seq<Action>, i: nat)
    requires IsRun(c, states, actions) && i < |states|
    ensures var s := states[i];
      && Tickets.Contiguous(s.q.claims, s.q.head) && 0 <= s.q.head <= s.q.tail == |s.enqueued|
      && (forall j :: j in s.delivered ==> 0 <= j < s.q.head && s.delivered[j] == s.enqueued[j])
      && (forall j :: 0 <= j < s.q.head ==> (j in s.delivered <==> !Awaited(s, j)))
  {
    hide Good, IsRun, Inv, Tickets.Contiguous;
    var hist, status := RunGood(c, states, actions, i);
    InOrder(c, states[i], hist, status);
  }

  lemma InOrder(c: Config, s: State, hist: seq<nat>, status: seq<Status>)
    requires Good(c, s, hist, status)
    ensures Tickets.Contiguous(s.q.claims, s.q.head) && 0 <= s.q.head <= s.q.tail == |s.enqueued|
    ensures forall j :: j in s.delivered ==> 0 <= j < s.q.head && s.delivered[j] == s.enqueued[j]
    ensures forall j :: 0 <= j < s.q.head ==> (j in s.delivered <==> !Awaited(s, j))
  {
    hide IndexesOk, ElemsOk, ConsumersOk, OldestOk, CurrentOk, RingOk, BlocksShaped, ProgressOk, PhaseOk, LinksOk,
         TicketsOk;
    TicketsFacts(s.q, s.enqueued, status);
    forall j | 0 <= j < |status|
      ensures Awaited(s, j) <==> status[j].Taken?
      ensures status[j] == Waiting <==> j >= s.q.head
    {
      if status[j].Taken? {
        assert RoleOk(s.cons[status[j].consumer], status[j].consumer, status[j], j);
      }
      forall t | 0 <= t < |s.cons| ensures RoleOk(s.cons[t], t, status[j], j) {
      }
    }
  }

  /** Each element is read once, from a cell that still holds what was enqueued at its index. */
  lemma ReadsEachElementOnce(c: Config, states: seq<State>, actions: seq<Action>, i: nat, t: Thread)
    requires IsRun(c, states, actions) && i < |states| && t < |states[i].cons| && states[i].cons[t].CRead?
    ensures var s, j := states[i], states[i].cons[t].i;
      && ConsEnabled(c, s, t) && 0 <= j < |s.enqueued| && j !in s.delivered
      && s.block[s.cons[t].block].cells[Off(c, j)] == Full(s.enqueued[j])
      && ConsNext(c, s, t).delivered == s.delivered[j := s.enqueued[j]]
  {
    hide Good, IsRun, Num, Off, Inv;
    var hist, status := RunGood(c, states, actions, i);
    ReadIsRight(c, states[i], hist, status, t);
  }

  lemma ReadIsRight(c: Config, s: State, hist: seq<nat>, status: seq<Status>, t: Thread)
    requires Good(c, s, hist, status) && t < |s.cons| && s.cons[t].CRead?
    ensures var j := s.cons[t].i;
      && ConsEnabled(c, s, t) && 0 <= j < |s.enqueued| && j !in s.delivered
      && s.block[s.cons[t].block].cells[Off(c, j)] == Full(s.enqueued[j])
      && ConsNext(c, s, t).delivered == s.delivered[j := s.enqueued[j]]
  {
    hide IndexesOk, ElemsOk, ConsumersOk, OldestOk, CurrentOk, RingOk, BlocksShaped, ProgressOk, PhaseOk, RolesOk,
         LinksOk;
    hide Num, Off, LastOf, SlotOf, TicketsOk, ConsOk;
    WorkFacts(c, s, hist, status, t);
    Linked(s, t);
    WorkIndexExists(c, s.index, hist, Pub(s.prod, hist), s.cons[t]);
  }

  lemma WorkIndexExists(c: Config, index: seq<Index>, hist: seq<nat>, pub: int, p: ConsPc)
    requires (p.CRead? || p.CFlag?) && ConsOk(c, index, hist, pub, p)
    ensures p.ix < |index|
  {
  }

  lemma Linked(s: State, t: Thread)
    requires LinksOk(s.cons, s.q.pc) && t < |s.cons| && s.cons[t] != CNone
    ensures t < |s.q.pc| && s.q.pc[t] != Tickets.Idle
  {
    assert LinkOk(s.cons[t], s.q.pc[t]);
  }

  /** A consumer inside an operation can always take its next step: every lookup succeeds. */
  lemma ConsumerNeverStuck(c: Config, states: seq<State>, actions: seq<Action>, i: nat, t: Thread)
    requires IsRun(c, states, actions) && i < |states| && t < |states[i].cons|
    requires states[i].cons[t] != CNone
    ensures ConsEnabled(c, states[i], t)
  {
    hide Good, IsRun, Num, Off, Inv;
    var hist, status := RunGood(c, states, actions, i);
    NeverStuck(c, states[i], hist, status, t);
  }

  lemma NeverStuck(c: Config, s: State, hist: seq<nat>, status: seq<Status>, t: Thread)
    requires Good(c, s, hist, status) && t < |s.cons| && s.cons[t] != CNone
    ensures ConsEnabled(c, s, t)
  {
    hide IndexesOk, ElemsOk, ConsumersOk, OldestOk, CurrentOk, RingOk, BlocksShaped, ProgressOk, PhaseOk, RolesOk,
         LinksOk;
    hide Num, Off, LastOf, SlotOf, TicketsOk, DeliveredOk, ConsOk, LoadEnabled, LoadNext;
    Linked(s, t);
    if s.cons[t].CRead? || s.cons[t].CFlag? {
      WorkFacts(c, s, hist, status, t);
      WorkIndexExists(c, s.index, hist, Pub(s.prod, hist), s.cons[t]);
    } else {
      LoadOk(c, s, hist, status, t);
    }
  }

  /**
   No block is re-used, and none of its index entries overwritten, while a claimed element in
   it is unread or its flag unset: the block the producer is preparing is not one a consumer
   is working on, and the slot it writes is not one a consumer is looking up.
   */
  lemma NothingHeldIsReused(c: Config, states: seq<State>, actions: seq<Action>, i: nat, t: Thread)
    requires IsRun(c, states, actions) && i < |states| && t < |states[i].cons|
    requires Unpublished(states[i].prod)
    ensures var s, p := states[i], states[i].cons[t];
      && (p.CRead? || p.CFlag? ==> s.tailBlock != Ref(p.block))
      && (p.CLoadBlock? && p.ix == |s.index| - 1 ==> p.slot != s.prFront)
      && (p.CLoadBase? && p.ix == |s.index| - 1 ==> p.front != s.prFront)
  {
    hide Good, IsRun, Num, Off, Inv;
    var hist, status := RunGood(c, states, actions, i);
    if states[i].cons[t].CRead? || states[i].cons[t].CFlag? {
      WorkNotReused(c, states[i], hist, status, t);
    } else if states[i].cons[t].CLoadBlock? || states[i].cons[t].CLoadBase? {
      RoomForEntry(c, states[i], hist, status);
      LoadFacts(c, states[i], hist, status, t);
      if states[i].cons[t].ix == |states[i].index| - 1 {
        SlotInUse(c, states[i], hist, states[i].cons[t]);
      }
    }
  }

  lemma WorkNotReused(c: Config, s: State, hist: seq<nat>, status: seq<Status>, t: Thread)
    requires Good(c, s, hist, status) && t < |s.cons| && (s.cons[t].CRead? || s.cons[t].CFlag?) && Unpublished(s.prod)
    ensures s.tailBlock != Ref(s.cons[t].block)
  {
    hide IndexesOk, ElemsOk, ConsumersOk, OldestOk, CurrentOk, BlocksShaped, ProgressOk, PhaseOk, RolesOk, LinksOk;
    hide Num, Off, LastOf, TicketsOk, DeliveredOk;
    WorkFacts(c, s, hist, status, t);
  }

  lemma SlotInUse(c: Config, s: State, hist: seq<nat>, p: ConsPc)
    requires (p.CLoadBlock? || p.CLoadBase?) && ConsOk(c, s.index, hist, Pub(s.prod, hist), p) && p.ix == |s.index| - 1
    requires |hist| - s.slotsUsed <= Num(c, p.i) <= Num(c, p.last - 1)
    requires IndexShaped(c, Current(s)) && LastOf(c, Current(s)) == Pub(s.prod, hist)
    requires s.prFront == (Current(s).front + 1) % Pow2(Current(s).ks)
    requires Pub(s.prod, hist) + 1 - (|hist| - s.slotsUsed) < Pow2(Current(s).ks)
    ensures (if p.CLoadBlock? then p.slot else p.front) != s.prFront
  {
    var x, pub := Current(s), Pub(s.prod, hist);
    hide Num, Off, LastOf;
    if p.CLoadBlock? {
      SlotsDiffer(x.front - pub, Num(c, p.i), pub + 1, Pow2(x.ks));
    } else {
      SlotsDiffer(x.front - pub, Num(c, x.entries[p.front].base), pub + 1, Pow2(x.ks));
    }
  }

  /** The k-th last entry of the index in use. */
  function EntryBack(s: State, k: nat): Entry
    requires |s.index| > 0 && |Current(s).entries| > 0
  {
    Current(s).entries[(s.prFront - 1 - k) % |Current(s).entries|]
  }

  /**
   Between two enqueues, the last slotsUsed entries of the index list the ring in order: their
   bases are consecutive multiples of the block size, each entry's block links to the next
   entry's block, the newest one is the tail block, and the tail block links to the oldest.
   */
  lemma IndexListsRing(c: Config, states: seq<State>, actions: seq<Action>, i: nat, k: nat)
    requires IsRun(c, states, actions) && i < |states| && states[i].prod.PIdle? && k < states[i].slotsUsed
    ensures var s := states[i];
      && |s.index| > 0 && s.slotsUsed <= |Current(s).entries| == Pow2(s.ks)
      && EntryBack(s, k).block < |s.block|
      && Off(c, EntryBack(s, k).base) == 0 && Num(c, EntryBack(s, k).base) == Num(c, s.q.tail - 1) - k
      && s.tailBlock == Ref(EntryBack(s, 0).block)
      && s.block[EntryBack(s, k).block].next == EntryBack(s, if k == 0 then s.slotsUsed - 1 else k - 1).block
  {
    hide Good, IsRun, Num, Off, Inv;
    var hist, status := RunGood(c, states, actions, i);
    RingListed(c, states[i], hist, status, k);
  }

  lemma RingListed(c: Config, s: State, hist: seq<nat>, status: seq<Status>, k: nat)
    requires Good(c, s, hist, status) && s.prod.PIdle? && k < s.slotsUsed
    ensures |s.index| > 0 && s.slotsUsed <= |Current(s).entries| == Pow2(s.ks)
    ensures EntryBack(s, k).block < |s.block|
    ensures Off(c, EntryBack(s, k).base) == 0 && Num(c, EntryBack(s, k).base) == Num(c, s.q.tail - 1) - k
    ensures s.tailBlock == Ref(EntryBack(s, 0).block)
    ensures s.block[EntryBack(s, k).block].next == EntryBack(s, if k == 0 then s.slotsUsed - 1 else k - 1).block
  {
    hide ElemsOk, ConsumersOk, OldestOk, BlocksShaped, ProgressOk, RolesOk, LinksOk, TicketsOk, DeliveredOk, Num, Off,
         EntryBack;
    hide CurrentOk, IndexesOk;
    EntryBackOk(c, s, hist, status, k);
    EntryBackOk(c, s, hist, status, 0);
    EntryBackOk(c, s, hist, status, if k == 0 then s.slotsUsed - 1 else k - 1);
  }

  lemma EntryBackOk(c: Config, s: State, hist: seq<nat>, status: seq<Status>, k: nat)
    requires Good(c, s, hist, status) && s.prod.PIdle? && k < s.slotsUsed
    ensures |s.index| > 0 && s.slotsUsed <= |hist| && |Current(s).entries| == Pow2(s.ks) && s.slotsUsed <= Pow2(s.ks)
    ensures EntryOk(c, EntryBack(s, k), |hist| - 1 - k, hist)
  {
    hide ElemsOk, ConsumersOk, OldestOk, BlocksShaped, ProgressOk, RolesOk, LinksOk, TicketsOk, DeliveredOk, Num, Off,
         PhaseOk, EntryOk;
    CurrentFacts(c, s.index, hist, |hist| - s.slotsUsed, |hist| - 1);
    EntryFromFront(c, s, hist, k);
  }

  lemma EntryFromFront(c: Config, s: State, hist: seq<nat>, k: nat)
    requires |s.index| > 0 && k < s.slotsUsed <= |hist| && CurrentOk(c, s.index, s.ks, s.prFront, s.slotsUsed,
        |hist| - 1)
    requires IndexOk(c, Current(s), hist, |hist| - s.slotsUsed, |hist| - 1)
    ensures |Current(s).entries| == Pow2(s.ks) && EntryOk(c, EntryBack(s, k), |hist| - 1 - k, hist)
  {
    var x := Current(s);
    hide EntryOk, Num, Off, Pow2, LastOf, SlotOf;
    assert EntryOk(c, x.entries[SlotOf(c, x, |hist| - 1 - k)], |hist| - 1 - k, hist);
    BackSlotOf(c, x, s.prFront, k, |hist| - 1);
  }

  lemma BackSlotOf(c: Config, x: Index, prFront: nat, k: nat, last: int)
    requires -1 <= x.front < |x.entries| == Pow2(x.ks) && prFront == (x.front + 1) % Pow2(x.ks) && LastOf(c, x) == last
    ensures (prFront - 1 - k) % Pow2(x.ks) == SlotOf(c, x, last - k)
  {
    hide LastOf, Pow2;
    BackSlot(x.front, k, last, Pow2(x.ks));
  }

  lemma BackSlot(front: int, k: nat, last: int, size: nat)
    requires size > 0
    ensures ((front + 1) % size - 1 - k) % size == (front + (last - k) - last) % size
  {
    ModAdd(front + 1, -1 - k, size);
  }

  /** With every thread idle, all claimed elements were delivered and no ticket is left over. */
  lemma QuiescentAllDelivered(c: Config, states: seq<State>, actions: seq<Action>, i: nat)
    requires IsRun(c, states, actions) && i < |states|
    requires forall t :: 0 <= t < |states[i].q.pc| ==> states[i].q.pc[t] == Tickets.Idle
    ensures var s := states[i];
      && s.q.opt - s.q.over == s.q.head
      && 0 <= s.q.head <= |s.enqueued| && s.delivered == map j | 0 <= j < s.q.head :: s.enqueued[j]
  {
    hide Good, IsRun, Inv;
    FirstInFirstOut(c, states, actions, i);
    var hist, status := RunGood(c, states, actions, i);
    AllIdle(c, states[i], hist, status);
  }

  lemma AllIdle(c: Config, s: State, hist: seq<nat>, status: seq<Status>)
    requires Good(c, s, hist, status)
    requires forall t :: 0 <= t < |s.q.pc| ==> s.q.pc[t] == Tickets.Idle
    ensures forall t :: 0 <= t < |s.cons| ==> s.cons[t] == CNone
    ensures s.q.opt - s.q.over == s.q.head
  {
    hide ElemsOk, ConsumersOk, OldestOk, BlocksShaped, ProgressOk, RolesOk, DeliveredOk, PhaseOk, IndexesOk, CurrentOk,
         RingOk;
    forall t | 0 <= t < |s.cons| ensures s.cons[t] == CNone {
      assert LinkOk(s.cons[t], s.q.pc[t]);
    }
    TicketsFacts(s.q, s.enqueued, status);
    Tickets.SumZero(s.q.pc, Tickets.Outstanding());
  }

  /** The producer, too, can always take its next step, whether or not an allocation fails. */
  lemma ProducerNeverStuck(c: Config, states: seq<State>, actions: seq<Action>, i: nat)
    requires IsRun(c, states, actions) && i < |states| && states[i].prod != PIdle
    ensures ProdEnabled(c, states[i], false)
  {
    hide Good, IsRun, Num, Off, Inv, ProdEnabled;
    var hist, status := RunGood(c, states, actions, i);
    var s := states[i];
    if s.prod.PScan? || s.prod.PRequisition? || s.prod.PGrow? || s.prod.PCheckRoom? {
      StartingEnabled(c, s, hist, status);
    } else {
      WritingEnabled(c, s, hist, status);
    }
  }

  lemma StartingEnabled(c: Config, s: State, hist: seq<nat>, status: seq<Status>)
    requires Good(c, s, hist, status) && Starting(s.prod)
    ensures ProdEnabled(c, s, false)
  {
    hide ElemsOk, ConsumersOk, OldestOk, BlocksShaped, RolesOk, LinksOk, TicketsOk, DeliveredOk, Num, Off, PhaseOk,
         IndexesOk;
    if s.slotsUsed > 0 {
      RingTurned(s.block, s.tailBlock, hist, s.slotsUsed);
    }
  }

  lemma WritingEnabled(c: Config, s: State, hist: seq<nat>, status: seq<Status>)
    requires Good(c, s, hist, status) && (Unpublished(s.prod) || s.prod.PConstruct? || s.prod.PTail?)
    ensures ProdEnabled(c, s, false)
  {
    hide ElemsOk, ConsumersOk, OldestOk, RolesOk, LinksOk, DeliveredOk, IndexesOk, CurrentOk, TicketsOk;
    TicketsFacts(s.q, s.enqueued, status);
    NumNonnegative(c, s.q.tail);
    if Unpublished(s.prod) {
      RoomForEntry(c, s, hist, status);
    }
    hide Num, Off;
  }

  // ---------------------------------------------------------------------
  // Distances on words
  // ---------------------------------------------------------------------

  /** The blocks of the ring are in memory, two bytes an element at least. */
  predicate BlocksFit(c: Config, s: State)
  {
    s.slotsUsed == 0 || 2 * (s.slotsUsed * BlockSize(c)) < Pow2(c.w)
  }

  lemma StepFits(c: Config, s: State, a: Action)
    requires BlocksFit(c, s) && Enabled(c, s, a)
    ensures BlocksFit(c, Next(c, s, a))
  {
    hide BlockSize, NoRoom, GrownEntries, FreshBlock, Tickets.Next, LoadNext, LoadEnabled;
  }

  lemma {:induction false} RunFits(c: Config, states: seq<State>, actions: seq<Action>, i: nat)
    requires IsRun(c, states, actions) && i < |states|
    ensures BlocksFit(c, states[i])
  {
    hide Next, Enabled;
    if i > 0 {
      RunFits(c, states, actions, i - 1);
      StepFits(c, states[i - 1], actions[i - 1]);
    }
  }

  /** The elements between head and tail lie in the blocks of the ring. */
  lemma HeadToTail(c: Config, s: State, hist: seq<nat>, status: seq<Status>)
    requires Good(c, s, hist, status)
    ensures 0 <= s.q.head <= s.q.tail && s.q.tail - s.q.head <= s.slotsUsed * BlockSize(c)
  {
    hide IndexesOk, ElemsOk, ConsumersOk, LinksOk, DeliveredOk, CurrentOk, BlocksShaped, ProgressOk, Tickets.Inv, Num;
    TicketsFacts(s.q, s.enqueued, status);
    if s.q.head < s.q.tail {
      assert status[s.q.head] == Waiting;
      assert |hist| - s.slotsUsed <= Num(c, s.q.head);
      LastBlock(c, s.prod, s.q.tail, |hist|);
      Span(c, s.q.head, s.q.tail, |hist|, s.slotsUsed);
    }
  }

  lemma LastBlock(c: Config, p: ProdPc, tail: int, blocks: nat)
    requires PhaseOk(c, p, tail, blocks)
    ensures Num(c, tail - 1) < blocks
  {
    NumBefore(c, tail);
  }

  lemma Span(c: Config, head: int, tail: int, blocks: int, used: nat)
    requires blocks - used <= Num(c, head) && Num(c, tail - 1) < blocks
    ensures tail - head <= used * BlockSize(c)
  {
    var m := BlockSize(c);
    Decompose(head, m);
    Decompose(tail - 1, m);
    MulAtMost(blocks - used, head / m, m);
    MulAtMost((tail - 1) / m + 1, blocks, m);
    MulSub(blocks, used, m);
  }

  lemma MulAtMost(x: int, y: int, m: nat)
    requires x <= y
    ensures x * m <= y * m
  {
  }

  /** If the blocks fit, one more reaches at most half the range. */
  lemma OneMoreFits(c: Config, used: nat)
    requires c.kb < c.w && (used == 0 || 2 * (used * BlockSize(c)) < Pow2(c.w))
    ensures used * BlockSize(c) + BlockSize(c) <= Pow2(c.w - 1)
  {
    var m, k := BlockSize(c), Pow2(c.w - 1 - c.kb);
    Pow2Add(c.w - 1 - c.kb, c.kb);
    assert Pow2(c.w - 1) == k * m && Pow2(c.w) == 2 * Pow2(c.w - 1);
    if used >= k {
      MulAtMost(k, used, m);
    }
    MulAtMost(used + 1, k, m);
    MulSub(used, -1, m);
  }

  /** In every reachable state head and tail are less than half the range of words apart. */
  lemma HeadTailWindow(c: Config, states: seq<State>, actions: seq<Action>, i: nat)
    requires IsRun(c, states, actions) && i < |states|
    ensures var q := states[i].q;
      0 <= q.head <= q.tail && q.tail + BlockSize(c) - q.head <= Pow2(c.w - 1)
  {
    assert c.kb < c.w;
    hide Good, IsRun;
    var hist, status := RunGood(c, states, actions, i);
    RunFits(c, states, actions, i);
    HeadToTail(c, states[i], hist, status);
    OneMoreFits(c, states[i].slotsUsed);
  }

  /**
   So the tests on words mean, in every reachable state, what they mean on counters: the assert at line
   1794 holds, there is no room exactly when one more block would reach half the range or pass the limit,
   and size_approx counts the elements.
   */
  lemma TestsOnWords(c: Config, states: seq<State>, actions: seq<Action>, i: nat)
    requires IsRun(c, states, actions) && i < |states|
    ensures var tail, head := states[i].q.tail, states[i].q.head;
      && !CircularLessThan(c.w, Word(c.w, tail), Word(c.w, head))
      && (NoRoom(c, head, tail) <==>
            || tail + BlockSize(c) - head >= Pow2(c.w - 1)
            || (c.limit.AtMost? && (c.limit.elements == 0 || tail + BlockSize(c) - head > c.limit.elements)))
      && SizeApprox(c.w, Word(c.w, head), Word(c.w, tail)) == tail - head
  {
    var tail, head := states[i].q.tail, states[i].q.head;
    HeadTailWindow(c, states, actions, i);
    hide IsRun;
    CircularLessThanDecides(c.w, tail, head);
    CircularLessThanDecides(c.w, head, tail + BlockSize(c));
    SizeApproxCounts(c.w, head, tail);
    ModUnique(tail - head, Pow2(c.w), 0, tail - head);
  }
}
