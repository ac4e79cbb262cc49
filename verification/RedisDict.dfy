/**
 The chained hash table of hiredis: buckets of linked entries in a table whose size is a power of
 two, rehashed into a larger table when it is full, and an iterator that lets its caller delete the
 entry it has just been given. It behaves as a finite map.
 */
module RedisDict {

  import opened Base
  import opened ModularCounters

  type Key = seq<byte>
  type Val = seq<byte>

  const DICT_HT_INITIAL_SIZE: nat := 4
  const LONG_MAX: nat := 0x7fff_ffff_ffff_ffff

  // ---------------------------------------------------------------------
  // Chains
  // ---------------------------------------------------------------------

  /** The entries of a bucket, linked by next. */
  datatype Chain = End | Entry(key: Key, val: Val, next: Chain)

  function Find(c: Chain, k: Key): Option<Val>
  {
    if c.End? then None else if c.key == k then Some(c.val) else Find(c.next, k)
  }

  function Length(c: Chain): nat
  {
    if c.End? then 0 else 1 + Length(c.next)
  }

  predicate Distinct(c: Chain)
  {
    c.Entry? ==> Find(c.next, c.key).None? && Distinct(c.next)
  }

  /** Every entry of the chain belongs to bucket i. */
  predicate Belongs(hash: Key -> nat, mask: nat, c: Chain, i: nat)
  {
    c.Entry? ==> Slot(hash, mask, c.key) == i && Belongs(hash, mask, c.next, i)
  }

  function Slot(hash: Key -> nat, mask: nat, k: Key): nat
  {
    And(hash(k), mask)
  }

  lemma {:induction false} BelongsAll(hash: Key -> nat, mask: nat, c: Chain, i: nat, k: Key)
    requires Belongs(hash, mask, c, i) && Slot(hash, mask, k) != i
    ensures Find(c, k).None?
  {
    if c.Entry? {
      BelongsAll(hash, mask, c.next, i, k);
    }
  }

  function SetVal(c: Chain, k: Key, v: Val): Chain
  {
    if c.End? then End
    else if c.key == k then Entry(k, v, c.next)
    else Entry(c.key, c.val, SetVal(c.next, k, v))
  }

  function Remove(c: Chain, k: Key): Chain
  {
    if c.End? then End else if c.key == k then c.next else Entry(c.key, c.val, Remove(c.next, k))
  }

  lemma {:induction false} SetValFinds(c: Chain, k: Key, v: Val, j: Key)
    requires Find(c, k).Some?
    ensures Find(SetVal(c, k, v), j) == if j == k then Some(v) else Find(c, j)
  {
    if c.key != k {
      SetValFinds(c.next, k, v, j);
    }
  }

  lemma {:induction false} SetValKeeps(hash: Key -> nat, mask: nat, c: Chain, i: nat, k: Key, v: Val)
    requires Find(c, k).Some? && Distinct(c) && Belongs(hash, mask, c, i)
    ensures Distinct(SetVal(c, k, v)) && Belongs(hash, mask, SetVal(c, k, v), i) && Length(SetVal(c, k, v)) == Length(c)
  {
    if c.key != k {
      SetValKeeps(hash, mask, c.next, i, k, v);
      SetValFinds(c.next, k, v, c.key);
    }
  }

  lemma {:induction false} RemoveFinds(c: Chain, k: Key, j: Key)
    requires Distinct(c)
    ensures Find(Remove(c, k), j) == if j == k then None else Find(c, j)
  {
    if c.Entry? && c.key != k {
      RemoveFinds(c.next, k, j);
    }
  }

  lemma {:induction false} RemoveKeeps(hash: Key -> nat, mask: nat, c: Chain, i: nat, k: Key)
    requires Distinct(c) && Belongs(hash, mask, c, i)
    ensures Distinct(Remove(c, k)) && Belongs(hash, mask, Remove(c, k), i)
    ensures Length(Remove(c, k)) == if Find(c, k).Some? then Length(c) - 1 else Length(c)
  {
    if c.Entry? && c.key != k {
      RemoveKeeps(hash, mask, c.next, i, k);
      RemoveFinds(c.next, k, c.key);
    }
  }

  // ---------------------------------------------------------------------
  // Tables
  // ---------------------------------------------------------------------

  function Total(t: seq<Chain>): nat
  {
    if |t| == 0 then 0 else Length(t[0]) + Total(t[1..])
  }

  lemma {:induction false} TotalUpdate(t: seq<Chain>, i: nat, c: Chain)
    requires i < |t|
    ensures Total(t[i := c]) == Total(t) - Length(t[i]) + Length(c) && Total(t) >= Length(t[i])
    decreases |t|
  {
    if i == 0 {
      assert t[0 := c][1..] == t[1..];
    } else {
      TotalUpdate(t[1..], i - 1, c);
      assert t[i := c][1..] == t[1..][i - 1 := c];
    }
  }

  lemma {:induction false} TotalZero(t: seq<Chain>)
    ensures Total(t) == 0 <==> forall i :: 0 <= i < |t| ==> t[i].End?
    decreases |t|
  {
    if |t| > 0 {
      TotalZero(t[1..]);
      if t[0].End? && forall i :: 0 <= i < |t[1..]| ==> t[1..][i].End? {
        forall i | 0 <= i < |t| ensures t[i].End? {
          if i > 0 {
            assert t[i] == t[1..][i - 1];
          }
        }
      }
      if forall i :: 0 <= i < |t| ==> t[i].End? {
        forall i | 0 <= i < |t[1..]| ensures t[1..][i].End? {
          assert t[1..][i] == t[i + 1];
        }
      }
    }
  }

  /** The hash of every key falls within the table. */
  ghost predicate InRange(hash: Key -> nat, mask: nat, n: nat)
  {
    forall k :: Slot(hash, mask, k) < n
  }

  /** Every entry sits in the bucket of its hash, and no bucket holds a key twice. */
  predicate Placed(hash: Key -> nat, mask: nat, t: seq<Chain>)
  {
    forall i :: 0 <= i < |t| ==> Distinct(t[i]) && Belongs(hash, mask, t[i], i)
  }

  function Get(m: map<Key, Val>, k: Key): Option<Val>
  {
    if k in m then Some(m[k]) else None
  }

  function Lookup(hash: Key -> nat, mask: nat, t: seq<Chain>, k: Key): Option<Val>
  {
    if Slot(hash, mask, k) < |t| then Find(t[Slot(hash, mask, k)], k) else None
  }

  /** The table holds the pairs of the map. */
  ghost predicate Agrees(hash: Key -> nat, mask: nat, t: seq<Chain>, m: map<Key, Val>)
  {
    forall k :: Lookup(hash, mask, t, k) == Get(m, k)
  }

  /** A change of one bucket that changes what is found under one key only. */
  lemma AgreesUpdate(hash: Key -> nat, mask: nat, t: seq<Chain>, m: map<Key, Val>, c: Chain, k: Key, m': map<Key, Val>)
    requires InRange(hash, mask, |t|) && Agrees(hash, mask, t, m)
    requires forall j :: Find(c, j) == if j == k then Get(m', k) else Find(t[Slot(hash, mask, k)], j)
    requires forall j :: j != k ==> Get(m', j) == Get(m, j)
    ensures Agrees(hash, mask, t[Slot(hash, mask, k) := c], m')
  {
    var i := Slot(hash, mask, k);
    forall j ensures Lookup(hash, mask, t[i := c], j) == Get(m', j) {
      assert Lookup(hash, mask, t, j) == Get(m, j);
    }
  }

  lemma PlacedUpdate(hash: Key -> nat, mask: nat, t: seq<Chain>, i: nat, c: Chain)
    requires Placed(hash, mask, t) && i < |t| && Distinct(c) && Belongs(hash, mask, c, i)
    ensures Placed(hash, mask, t[i := c])
  {
  }

  /** Masks of powers of two. */
  lemma MaskInRange(hash: Key -> nat, k: nat)
    ensures InRange(hash, Pow2(k) - 1, Pow2(k))
  {
    var mask: nat := Pow2(k) - 1;
    forall key ensures Slot(hash, mask, key) < Pow2(k) {
      LowMaskIsRemainder(hash(key), k);
    }
  }

  // --- rehashing

  /** Part of the entries have been moved from the table o to the table n. */
  ghost predicate Moving(hash: Key -> nat, om: nat, o: seq<Chain>, nm: nat, n: seq<Chain>, m: map<Key, Val>)
  {
    && Placed(hash, om, o) && Placed(hash, nm, n)
    && forall k :: MovedOrNot(Lookup(hash, om, o, k), Lookup(hash, nm, n, k), Get(m, k))
  }

  predicate MovedOrNot(inOld: Option<Val>, inNew: Option<Val>, want: Option<Val>)
  {
    (inOld.None? && inNew == want) || (inNew.None? && inOld == want)
  }

  /** Moving the first entry of a bucket to the front of its new bucket. */
  lemma MoveEntry(hash: Key -> nat, om: nat, o: seq<Chain>, nm: nat, n: seq<Chain>, m: map<Key, Val>, i: nat)
    requires Moving(hash, om, o, nm, n, m) && InRange(hash, om, |o|) && InRange(hash, nm, |n|)
    requires i < |o| && o[i].Entry?
    ensures var e := o[i];
      var h := Slot(hash, nm, e.key);
      Moving(hash, om, o[i := e.next], nm, n[h := Entry(e.key, e.val, n[h])], m)
  {
    var e := o[i];
    var h := Slot(hash, nm, e.key);
    var o', n' := o[i := e.next], n[h := Entry(e.key, e.val, n[h])];
    assert MovedOrNot(Lookup(hash, om, o, e.key), Lookup(hash, nm, n, e.key), Get(m, e.key));
    PlacedUpdate(hash, om, o, i, e.next);
    PlacedUpdate(hash, nm, n, h, Entry(e.key, e.val, n[h]));
    forall k ensures MovedOrNot(Lookup(hash, om, o', k), Lookup(hash, nm, n', k), Get(m, k)) {
      assert MovedOrNot(Lookup(hash, om, o, k), Lookup(hash, nm, n, k), Get(m, k));
    }
  }

  lemma MoveStarts(hash: Key -> nat, om: nat, o: seq<Chain>, nm: nat, n: seq<Chain>, m: map<Key, Val>)
    requires Placed(hash, om, o) && Agrees(hash, om, o, m) && forall i :: 0 <= i < |n| ==> n[i] == End
    ensures Moving(hash, om, o, nm, n, m)
  {
    forall k ensures MovedOrNot(Lookup(hash, om, o, k), Lookup(hash, nm, n, k), Get(m, k)) {
      assert Lookup(hash, om, o, k) == Get(m, k);
    }
  }

  lemma MoveEnds(hash: Key -> nat, om: nat, o: seq<Chain>, nm: nat, n: seq<Chain>, m: map<Key, Val>)
    requires Moving(hash, om, o, nm, n, m) && forall i :: 0 <= i < |o| ==> o[i] == End
    ensures Placed(hash, nm, n) && Agrees(hash, nm, n, m)
  {
    forall k ensures Lookup(hash, nm, n, k) == Get(m, k) {
      assert MovedOrNot(Lookup(hash, om, o, k), Lookup(hash, nm, n, k), Get(m, k));
    }
  }

  // ---------------------------------------------------------------------
  // The dictionary
  // ---------------------------------------------------------------------

  predicate PowerOfTwo(n: nat)
  {
    n == 1 || (n % 2 == 0 && n > 0 && PowerOfTwo(n / 2))
  }

  lemma {:induction false} PowerIs(n: nat) returns (k: nat)
    requires PowerOfTwo(n)
    ensures n == Pow2(k)
  {
    if n == 1 {
      k := 0;
    } else {
      var j := PowerIs(n / 2);
      k := j + 1;
    }
  }

  lemma MaskFits(hash: Key -> nat, n: nat)
    requires PowerOfTwo(n)
    ensures InRange(hash, n - 1, n)
  {
    var k := PowerIs(n);
    MaskInRange(hash, k);
  }

  /** Between a power of two and its double there is no other. */
  lemma {:induction false} PowersApart(a: nat, b: nat)
    requires PowerOfTwo(a) && PowerOfTwo(b) && a <= b < 2 * a
    ensures a == b
  {
    if a > 1 && b > 1 {
      PowersApart(a / 2, b / 2);
    }
  }

  /**
   _dictNextPower: the least power of two, from the initial size on, that is no smaller; a huge size is not
   rounded at all.
   */
  method NextPower(size: nat) returns (i: nat)
    ensures size >= LONG_MAX ==> i == LONG_MAX
    ensures size < LONG_MAX ==>
        PowerOfTwo(i) && i >= size && i >= DICT_HT_INITIAL_SIZE && (i == DICT_HT_INITIAL_SIZE || i < 2 * size)
  {
    if size >= LONG_MAX {
      return LONG_MAX;
    }
    i := DICT_HT_INITIAL_SIZE;
    assert PowerOfTwo(1) && PowerOfTwo(2);
    while i < size
      invariant PowerOfTwo(i) && i >= DICT_HT_INITIAL_SIZE && (i == DICT_HT_INITIAL_SIZE || i < 2 * size)
      decreases size - i
    {
      i := i * 2;
    }
  }

  /** What the fields stand for. */
  ghost predicate Holds(hash: Key -> nat, t: seq<Chain>, size: nat, mask: nat, used: nat, m: map<Key, Val>)
  {
    && |t| == size && used == |m| == Total(t)
    && (if size == 0 then m == map[]
        else PowerOfTwo(size) && size >= DICT_HT_INITIAL_SIZE && mask == size - 1
             && Placed(hash, mask, t) && Agrees(hash, mask, t, m))
  }

  class Dict {
    const hash: Key -> nat
    var table: array<Chain>
    var size: nat
    var sizemask: nat
    var used: nat
    /** The map the table stands for. */
    ghost var contents: map<Key, Val>

    ghost predicate Valid()
      reads this, table
    {
      Holds(hash, table[..], size, sizemask, used, contents)
    }

    /** dictCreate */
    constructor (hash: Key -> nat)
      ensures Valid() && fresh(table) && contents == map[] && size == 0 && this.hash == hash
    {
      this.hash := hash;
      table := new Chain[0];
      size, sizemask, used, contents := 0, 0, 0, map[];
    }

    /** dictExpand */
    method Expand(newSize: nat) returns (ok: bool)
      requires Valid() && newSize < LONG_MAX
      modifies this, table
      ensures Valid() && unchanged(`contents, `used) && (table == old(table) || fresh(table))
      ensures ok == (old(used) <= newSize)
      ensures if ok then size >= newSize && size >= DICT_HT_INITIAL_SIZE else unchanged(this) && unchanged(table)
      ensures ok && PowerOfTwo(newSize) && newSize >= DICT_HT_INITIAL_SIZE ==> size == newSize
    {
      hide PowerOfTwo, Placed, Agrees, Total, InRange, Moving;
      var realSize := NextPower(newSize);
      if used > newSize {
        return false;
      }
      var n := new Chain[realSize](_ => End);
      if size > 0 {
        Rehash(n, realSize - 1);
      } else {
        Empty(hash, realSize - 1, n[..]);
      }
      if PowerOfTwo(newSize) && newSize >= DICT_HT_INITIAL_SIZE {
        PowersApart(newSize, realSize);
      }
      table, size, sizemask, ok := n, realSize, realSize - 1, true;
    }

    /** The loop of dictExpand: every entry is linked in front of its bucket in the new table. */
    method Rehash(n: array<Chain>, mask: nat)
      requires Valid() && size > 0 && PowerOfTwo(n.Length) && mask == n.Length - 1 && n != table
      requires forall i :: 0 <= i < n.Length ==> n[i] == End
      modifies n
      ensures Placed(hash, mask, n[..]) && Agrees(hash, mask, n[..], contents) && Total(n[..]) == used
    {
      hide PowerOfTwo, Placed, Agrees, Total, InRange, Moving;
      MaskFits(hash, size);
      MaskFits(hash, n.Length);
      MoveStarts(hash, sizemask, table[..], mask, n[..], contents);
      var left := used;
      ghost var o := table[..];
      TotalZero(n[..]);
      var i := 0;
      while i < size && left > 0
        invariant i <= size == |o| && left == Total(o) && Total(n[..]) == used - left && unchanged(this, table)
        invariant Moving(hash, sizemask, o, mask, n[..], contents)
        invariant forall j :: 0 <= j < i ==> o[j] == End
        invariant forall j :: i <= j < size ==> o[j] == table[j]
      {
        left, o := MoveBucket(n, mask, i, left, o);
        i := i + 1;
      }
      TotalZero(o);
      MoveEnds(hash, sizemask, o, mask, n[..], contents);
    }

    /** The entries of one bucket, one after the other. */
    method MoveBucket(n: array<Chain>, mask: nat, i: nat, left: nat, ghost o: seq<Chain>)
        returns (left': nat, ghost o': seq<Chain>)
      requires n != table && i < size && size == table.Length == |o| && o[i] == table[i] && left == Total(o)
          && left <= used
      requires InRange(hash, sizemask, |o|) && InRange(hash, mask, n.Length) && Total(n[..]) == used - left
      requires Moving(hash, sizemask, o, mask, n[..], contents)
      modifies n
      ensures left' == Total(o') && Total(n[..]) == used - left' && left' <= used
          && Moving(hash, sizemask, o', mask, n[..], contents)
      ensures o' == o[i := End]
    {
      hide Placed, Agrees, Total, InRange, Moving;
      left', o' := left, o;
      var he := table[i];
      while he.Entry?
        invariant |o'| == |o| && o' == o[i := he] && left' == Total(o') && Total(n[..]) == used - left' && left' <= used
            && unchanged(this, table)
        invariant Moving(hash, sizemask, o', mask, n[..], contents)
        decreases he
      {
        MoveEntry(hash, sizemask, o', mask, n[..], contents, i);
        TotalUpdate(o', i, he.next);
        o' := o'[i := he.next];
        LinkInFront(n, he, mask);
        left' := left' - 1;
        he := he.next;
      }
    }

    method LinkInFront(n: array<Chain>, he: Chain, mask: nat)
      requires he.Entry? && InRange(hash, mask, n.Length)
      modifies n
      ensures var h := Slot(hash, mask, he.key);
        h < n.Length && n[..] == old(n[..])[h := Entry(he.key, he.val, old(n[..])[h])]
            && Total(n[..]) == Total(old(n[..])) + 1
    {
      var h := And(hash(he.key), mask);
      assert h == Slot(hash, mask, he.key);
      TotalUpdate(n[..], h, Entry(he.key, he.val, n[h]));
      n[h] := Entry(he.key, he.val, n[h]);
      assert n[..] == old(n[..])[h := n[h]];
    }

    /** _dictExpandIfNeeded */
    method ExpandIfNeeded() returns (ok: bool)
      requires Valid() && size <= MAX_BUCKETS
      modifies this, table
      ensures Valid() && ok && size > 0 && unchanged(`contents, `used) && (table == old(table) || fresh(table))
      ensures size == if old(size) == 0 then DICT_HT_INITIAL_SIZE else if old(used) == old(size) then 2 * old(size)
          else old(size)
    {
      hide Placed, Agrees, Total;
      if size == 0 {
        assert PowerOfTwo(1) && PowerOfTwo(2) && PowerOfTwo(4);
        ok := Expand(DICT_HT_INITIAL_SIZE);
      } else if used == size {
        assert PowerOfTwo(2 * size);
        ok := Expand(size * 2);
      } else {
        ok := true;
      }
    }

    /** The walk along a bucket: the value the key has, if it is there. */
    method Walk(k: Key) returns (h: nat, v: Option<Val>)
      requires Valid() && size > 0
      ensures h == Slot(hash, sizemask, k) < size && v == Find(table[h], k) == Get(contents, k)
    {
      MaskFits(hash, size);
      assert Lookup(hash, sizemask, table[..], k) == Get(contents, k);
      h := And(hash(k), sizemask);
      assert h == Slot(hash, sizemask, k);
      var he := table[h];
      while he.Entry?
        invariant Find(he, k) == Find(table[h], k)
        decreases he
      {
        if he.key == k {
          return h, Some(he.val);
        }
        he := he.next;
      }
      v := None;
    }

    /** dictFind */
    method FindEntry(k: Key) returns (v: Option<Val>)
      requires Valid()
      ensures v == Get(contents, k)
    {
      if size == 0 {
        return None;
      }
      var h;
      h, v := Walk(k);
    }

    /** _dictKeyIndex: the bucket for a new key, or -1 when the key is there already. */
    method KeyIndex(k: Key) returns (index: int)
      requires Valid() && size <= MAX_BUCKETS
      modifies this, table
      ensures Valid() && size > 0 && unchanged(`contents, `used) && (table == old(table) || fresh(table))
      ensures size == if old(size) == 0 then DICT_HT_INITIAL_SIZE else if old(used) == old(size) then 2 * old(size)
          else old(size)
      ensures if k in contents then index == -1 else index == Slot(hash, sizemask, k) < size
    {
      var ok := ExpandIfNeeded();
      var h, v := Walk(k);
      index := if v.Some? then -1 else h;
    }

    /** dictAdd */
    method Add(k: Key, v: Val) returns (ok: bool)
      requires Valid() && size <= MAX_BUCKETS
      modifies this, table
      ensures Valid() && (table == old(table) || fresh(table))
      ensures ok == (k !in old(contents)) && contents == if ok then old(contents)[k := v] else old(contents)
      ensures size == if old(size) == 0 then DICT_HT_INITIAL_SIZE else if old(used) == old(size) then 2 * old(size)
          else old(size)
    {
      var index := KeyIndex(k);
      if index == -1 {
        return false;
      }
      AddHolds(hash, table[..], size, sizemask, used, contents, k, v);
      ghost var was := table[..];
      table[index] := Entry(k, v, table[index]);
      assert table[..] == was[index := Entry(k, v, was[index])];
      used := used + 1;
      contents := contents[k := v];
      ok := true;
    }

    /** dictReplace: true when the key was not there. */
    method Replace(k: Key, v: Val) returns (added: bool)
      requires Valid() && size <= MAX_BUCKETS
      modifies this, table
      ensures Valid() && (table == old(table) || fresh(table))
      ensures added == (k !in old(contents)) && contents == old(contents)[k := v]
      ensures size == if old(size) == 0 then DICT_HT_INITIAL_SIZE else if old(used) == old(size) then 2 * old(size)
          else old(size)
    {
      added := Add(k, v);
      if added {
        return;
      }
      var h, was := Walk(k);
      SetHolds(hash, table[..], size, sizemask, used, contents, k, v);
      ghost var before := table[..];
      var c := StoreVal(table[h], k, v);
      table[h] := c;
      assert table[..] == before[h := c];
      contents := contents[k := v];
    }

    /** dictDelete */
    method Delete(k: Key) returns (ok: bool)
      requires Valid()
      modifies this, table
      ensures Valid() && unchanged(`table, `size, `sizemask)
      ensures ok == (k in old(contents)) && contents == old(contents) - {k}
      ensures size > 0 ==> Slot(hash, sizemask, k) < size
      ensures if size > 0 then
                var h := Slot(hash, sizemask, k);
                table[..] == old(table[..])[h := Remove(old(table[Slot(hash, sizemask, k)]), k)]
              else
                unchanged(table)
    {
      if size == 0 {
        assert contents - {k} == contents;
        return false;
      }
      MaskFits(hash, size);
      RemoveHolds(hash, table[..], size, sizemask, used, contents, k);
      ghost var before := table[..];
      var h := And(hash(k), sizemask);
      assert h == Slot(hash, sizemask, k);
      var c;
      c, ok := Unlink(table[h], k);
      table[h] := c;
      assert table[..] == before[h := c];
      if ok {
        used := used - 1;
      }
      contents := contents - {k};
    }
  }

  lemma Empty(hash: Key -> nat, mask: nat, n: seq<Chain>)
    requires forall i :: 0 <= i < |n| ==> n[i] == End
    ensures Placed(hash, mask, n) && Agrees(hash, mask, n, map[]) && Total(n) == 0
  {
    TotalZero(n);
  }

  /** The hash is an unsigned int and the index of a bucket an int. */
  const MAX_BUCKETS: nat := 0x4000_0000

  lemma AddHolds(hash: Key -> nat, t: seq<Chain>, size: nat, mask: nat, used: nat, m: map<Key, Val>, k: Key, v: Val)
    requires Holds(hash, t, size, mask, used, m) && size > 0 && k !in m
    ensures Slot(hash, mask, k) < size
    ensures var i := Slot(hash, mask, k);
      Holds(hash, t[i := Entry(k, v, t[i])], size, mask, used + 1, m[k := v])
  {
    hide Placed, Total, PowerOfTwo;
    MaskFits(hash, size);
    var i := Slot(hash, mask, k);
    var c := Entry(k, v, t[i]);
    assert Lookup(hash, mask, t, k) == Get(m, k);
    BucketOk(hash, mask, t, i);
    PlacedUpdate(hash, mask, t, i, c);
    TotalUpdate(t, i, c);
    AgreesUpdate(hash, mask, t, m, c, k, m[k := v]);
  }

  lemma RangeAt(hash: Key -> nat, mask: nat, n: nat, k: Key)
    requires InRange(hash, mask, n)
    ensures Slot(hash, mask, k) < n
  {
  }

  lemma LookupIs(hash: Key -> nat, mask: nat, t: seq<Chain>, m: map<Key, Val>, k: Key)
    requires Agrees(hash, mask, t, m) && Slot(hash, mask, k) < |t|
    ensures Find(t[Slot(hash, mask, k)], k) == Get(m, k)
  {
    assert Lookup(hash, mask, t, k) == Get(m, k);
  }

  lemma BucketOk(hash: Key -> nat, mask: nat, t: seq<Chain>, i: nat)
    requires Placed(hash, mask, t) && i < |t|
    ensures Distinct(t[i]) && Belongs(hash, mask, t[i], i)
  {
  }

  lemma SetHolds(hash: Key -> nat, t: seq<Chain>, size: nat, mask: nat, used: nat, m: map<Key, Val>, k: Key, v: Val)
    requires Holds(hash, t, size, mask, used, m) && size > 0 && k in m
    ensures Slot(hash, mask, k) < size
    ensures var i := Slot(hash, mask, k);
      Holds(hash, t[i := SetVal(t[i], k, v)], size, mask, used, m[k := v])
  {
    hide Placed, Total, PowerOfTwo;
    MaskFits(hash, size);
    var i := Slot(hash, mask, k);
    var c := SetVal(t[i], k, v);
    assert Lookup(hash, mask, t, k) == Get(m, k);
    BucketOk(hash, mask, t, i);
    SetValKeeps(hash, mask, t[i], i, k, v);
    forall j ensures Find(c, j) == if j == k then Some(v) else Find(t[i], j) {
      SetValFinds(t[i], k, v, j);
    }
    PlacedUpdate(hash, mask, t, i, c);
    TotalUpdate(t, i, c);
    AgreesUpdate(hash, mask, t, m, c, k, m[k := v]);
    assert |m[k := v]| == |m| by {
      assert m[k := v].Keys == m.Keys;
      assert |m[k := v].Keys| == |m.Keys|;
    }
  }

  lemma RemoveHolds(hash: Key -> nat, t: seq<Chain>, size: nat, mask: nat, used: nat, m: map<Key, Val>, k: Key)
    requires Holds(hash, t, size, mask, used, m) && size > 0
    ensures Slot(hash, mask, k) < size && Find(t[Slot(hash, mask, k)], k) == Get(m, k) && (k in m ==> used > 0)
    ensures var i := Slot(hash, mask, k);
      Holds(hash, t[i := Remove(t[i], k)], size, mask, if k in m then used - 1 else used, m - {k})
  {
    hide Placed, Total, PowerOfTwo, Agrees, InRange, Remove, Find, Distinct, Belongs;
    MaskFits(hash, size);
    RangeAt(hash, mask, size, k);
    LookupIs(hash, mask, t, m, k);
    var i := Slot(hash, mask, k);
    var c := Remove(t[i], k);
    BucketOk(hash, mask, t, i);
    RemoveKeeps(hash, mask, t[i], i, k);
    forall j ensures Find(c, j) == if j == k then None else Find(t[i], j) {
      RemoveFinds(t[i], k, j);
    }
    PlacedUpdate(hash, mask, t, i, c);
    TotalUpdate(t, i, c);
    AgreesUpdate(hash, mask, t, m, c, k, m - {k});
    RemoveSize(m, k);
  }

  lemma RemoveSize(m: map<Key, Val>, k: Key)
    ensures |m - {k}| == if k in m then |m| - 1 else |m|
    ensures k in m ==> |m| > 0
  {
    if k in m {
      assert m == (m - {k})[k := m[k]];
    } else {
      assert m - {k} == m;
    }
  }

  /** Entries in front of a chain. */
  function Linked(before: seq<(Key, Val)>, c: Chain): Chain
  {
    if |before| == 0 then c else Entry(before[0].0, before[0].1, Linked(before[1..], c))
  }

  lemma {:induction false} LinkedOn(before: seq<(Key, Val)>, k: Key, v: Val, c: Chain)
    ensures Linked(before + [(k, v)], c) == Linked(before, Entry(k, v, c))
    decreases |before|
  {
    if |before| > 0 {
      assert (before + [(k, v)])[1..] == before[1..] + [(k, v)];
      LinkedOn(before[1..], k, v, c);
    } else {
      assert [(k, v)][1..] == [];
    }
  }

  /** The entry of a key gets another value. */
  method StoreVal(c: Chain, k: Key, v: Val) returns (c': Chain)
    requires Find(c, k).Some?
    ensures c' == SetVal(c, k, v)
  {
    var before: seq<(Key, Val)> := [];
    var he := c;
    while he.key != k
      invariant he.Entry? && Find(he, k).Some? && Linked(before, SetVal(he, k, v)) == SetVal(c, k, v)
      decreases he
    {
      LinkedOn(before, he.key, he.val, SetVal(he.next, k, v));
      before := before + [(he.key, he.val)];
      he := he.next;
    }
    c' := Linked(before, Entry(k, v, he.next));
  }

  /** The entry of a key is taken out of the chain. */
  method Unlink(c: Chain, k: Key) returns (c': Chain, found: bool)
    ensures c' == Remove(c, k) && found == Find(c, k).Some?
  {
    var before: seq<(Key, Val)> := [];
    var de := c;
    while de.Entry?
      invariant Linked(before, Remove(de, k)) == Remove(c, k) && Find(de, k) == Find(c, k)
      decreases de
    {
      if de.key == k {
        return Linked(before, de.next), true;
      }
      LinkedOn(before, de.key, de.val, Remove(de.next, k));
      before := before + [(de.key, de.val)];
      de := de.next;
    }
    c', found := Linked(before, End), false;
  }

  // ---------------------------------------------------------------------
  // Iteration
  // ---------------------------------------------------------------------

  function Entries(c: Chain): seq<(Key, Val)>
  {
    if c.End? then [] else [(c.key, c.val)] + Entries(c.next)
  }

  /** The entries of the buckets from i on, in order. */
  function EntriesFrom(t: seq<Chain>, i: nat): seq<(Key, Val)>
    decreases |t| - i
  {
    if i >= |t| then [] else Entries(t[i]) + EntriesFrom(t, i + 1)
  }

  lemma {:induction false} EntriesBefore(t: seq<Chain>, i: nat, c: Chain, j: nat)
    requires i < |t| && i < j
    ensures EntriesFrom(t[i := c], j) == EntriesFrom(t, j)
    decreases |t| - j
  {
    if j < |t| {
      EntriesBefore(t, i, c, j + 1);
    }
  }

  lemma {:induction false} EntriesFind(c: Chain, k: Key, v: Val)
    requires Distinct(c)
    ensures (k, v) in Entries(c) <==> Find(c, k) == Some(v)
  {
    if c.Entry? {
      EntriesFind(c.next, k, v);
    }
  }

  lemma {:induction false} EntriesFromFind(hash: Key -> nat, mask: nat, t: seq<Chain>, i: nat, k: Key, v: Val)
    requires Placed(hash, mask, t)
    ensures (k, v) in EntriesFrom(t, i) <==>
        i <= Slot(hash, mask, k) < |t| && Find(t[Slot(hash, mask, k)], k) == Some(v)
    decreases |t| - i
  {
    if i < |t| {
      EntriesFromFind(hash, mask, t, i + 1, k, v);
      EntriesFind(t[i], k, v);
      if Slot(hash, mask, k) != i {
        BelongsAll(hash, mask, t[i], i, k);
      }
    }
  }

  /** No key occurs twice. */
  predicate Once(es: seq<(Key, Val)>)
  {
    forall i, j :: 0 <= i < j < |es| ==> es[i].0 != es[j].0
  }

  lemma {:induction false} ChainOnce(c: Chain)
    requires Distinct(c)
    ensures Once(Entries(c))
  {
    if c.Entry? {
      ChainOnce(c.next);
      var es := Entries(c);
      forall i, j | 0 <= i < j < |es| ensures es[i].0 != es[j].0 {
        var e := es[j];
        assert e == Entries(c.next)[j - 1] && e in Entries(c.next);
        EntriesFind(c.next, e.0, e.1);
        if i > 0 {
          assert es[i] == Entries(c.next)[i - 1];
        }
      }
    }
  }

  lemma {:induction false} TableOnce(hash: Key -> nat, mask: nat, t: seq<Chain>, i: nat)
    requires Placed(hash, mask, t)
    ensures Once(EntriesFrom(t, i))
    decreases |t| - i
  {
    if i < |t| {
      ChainOnce(t[i]);
      TableOnce(hash, mask, t, i + 1);
      var a, b := Entries(t[i]), EntriesFrom(t, i + 1);
      forall x, y | 0 <= x < |a| && 0 <= y < |b| ensures a[x].0 != b[y].0 {
        assert a[x] in a && b[y] in b;
        EntriesFind(t[i], a[x].0, a[x].1);
        EntriesFromFind(hash, mask, t, i + 1, b[y].0, b[y].1);
        if Slot(hash, mask, a[x].0) != i {
          BelongsAll(hash, mask, t[i], i, a[x].0);
        }
      }
      OnceJoined(a, b);
    }
  }

  lemma OnceJoined(a: seq<(Key, Val)>, b: seq<(Key, Val)>)
    requires Once(a) && Once(b) && forall x, y :: 0 <= x < |a| && 0 <= y < |b| ==> a[x].0 != b[y].0
    ensures Once(a + b)
  {
    forall i, j | 0 <= i < j < |a + b| ensures (a + b)[i].0 != (a + b)[j].0 {
      if j >= |a| && i < |a| {
        assert (a + b)[j] == b[j - |a|] && (a + b)[i] == a[i];
      }
    }
  }

  /** The entries of the whole table: every pair of the map, every key once. */
  lemma EntriesExactly(hash: Key -> nat, t: seq<Chain>, size: nat, mask: nat, used: nat, m: map<Key, Val>)
    requires Holds(hash, t, size, mask, used, m)
    ensures Once(EntriesFrom(t, 0))
    ensures forall k, v :: (k, v) in EntriesFrom(t, 0) <==> k in m && m[k] == v
  {
    if size > 0 {
      MaskFits(hash, size);
      TableOnce(hash, mask, t, 0);
      forall k, v ensures (k, v) in EntriesFrom(t, 0) <==> k in m && m[k] == v {
        EntriesFromFind(hash, mask, t, 0, k, v);
        RangeAt(hash, mask, size, k);
        LookupIs(hash, mask, t, m, k);
      }
    }
  }

  /** What an iterator at a bucket, with or without an entry, has still to come. */
  function ToCome(t: seq<Chain>, index: int, entry: Chain, nextEntry: Chain): seq<(Key, Val)>
    requires index >= -1
  {
    (if entry.End? then [] else Entries(nextEntry)) + EntriesFrom(t, index + 1)
  }

  class DictIterator {
    const dict: Dict
    var index: int
    var entry: Chain
    var nextEntry: Chain

    /** dictGetIterator */
    constructor (dict: Dict)
      ensures this.dict == dict && index == -1 && entry == End && nextEntry == End
    {
      this.dict := dict;
      index, entry, nextEntry := -1, End, End;
    }

    /** The entry returned last and those saved behind it are of the bucket the iterator is at. */
    ghost predicate Valid()
      reads this, dict
    {
      index >= -1 && (entry.Entry? ==> 0 <= index < dict.size && Slot(dict.hash, dict.sizemask, entry.key) == index
                                       && Belongs(dict.hash, dict.sizemask, nextEntry, index))
    }

    /** The entries still to come. */
    ghost function Remaining(): seq<(Key, Val)>
      requires Valid()
      reads this, dict, dict.table
    {
      ToCome(dict.table[..], index, entry, nextEntry)
    }

    /** dictNext: the entry behind the one returned is saved, so the caller may delete the one returned. */
    method Next() returns (e: Option<(Key, Val)>)
      requires Valid() && dict.Valid()
      modifies this
      ensures Valid() && dict.Valid()
      ensures old(Remaining()) == [] ==> e.None? && Remaining() == []
      ensures old(Remaining()) != [] ==> e == Some(old(Remaining())[0]) && Remaining() == old(Remaining())[1..]
      ensures e.Some? ==> entry.Entry? && entry.key == e.value.0
    {
      hide Holds, EntriesFrom, Entries;
      ghost var t, r := dict.table[..], Remaining();
      while true
        invariant Valid() && dict.Valid() && dict.table[..] == t && r == ToCome(t, index, entry, nextEntry)
        decreases dict.size - index, if entry.Entry? then 1 else 0
      {
        var end := Load();
        if end {
          return None;
        }
        if entry.Entry? {
          nextEntry := entry.next;
          FirstToCome(t, index, entry);
          return Some((entry.key, entry.val));
        }
        EntriesOfNone();
      }
    }

    /** The saved entry, or the head of the next bucket; true at the end of the table. */
    method Load() returns (end: bool)
      requires Valid() && dict.Valid()
      modifies this
      ensures end ==> Valid() && entry.End? && Remaining() == [] && old(Remaining()) == []
      ensures !end ==> (0 <= index < dict.size && Belongs(dict.hash, dict.sizemask, entry, index)
                   && old(Remaining()) == Entries(entry) + EntriesFrom(dict.table[..], index + 1)
                   && (if old(entry).End? then index == old(index) + 1 else index == old(index)))
    {
      hide Holds, EntriesFrom, Entries, Belongs;
      ghost var t := dict.table[..];
      HoldsSize(dict.hash, t, dict.size, dict.sizemask, dict.used, dict.contents);
      end := false;
      if entry.End? {
        index := index + 1;
        FromNext(t, index);
        if index >= dict.size {
          FromNext(t, index + 1);
          return true;
        }
        entry := dict.table[index];
        HoldsBucket(dict.hash, t, dict.size, dict.sizemask, dict.used, dict.contents, index);
      } else {
        entry := nextEntry;
      }
    }
  }

  lemma HoldsSize(hash: Key -> nat, t: seq<Chain>, size: nat, mask: nat, used: nat, m: map<Key, Val>)
    requires Holds(hash, t, size, mask, used, m)
    ensures |t| == size
  {
  }

  lemma HoldsBucket(hash: Key -> nat, t: seq<Chain>, size: nat, mask: nat, used: nat, m: map<Key, Val>, i: nat)
    requires Holds(hash, t, size, mask, used, m) && i < size
    ensures |t| == size && Belongs(hash, mask, t[i], i)
  {
  }

  lemma FromNext(t: seq<Chain>, i: nat)
    ensures EntriesFrom(t, i) == if i < |t| then Entries(t[i]) + EntriesFrom(t, i + 1) else []
    ensures [] + EntriesFrom(t, i) == EntriesFrom(t, i)
  {
  }

  lemma EntriesOfNone()
    ensures Entries(End) == []
  {
  }

  lemma FirstToCome(t: seq<Chain>, i: nat, c: Chain)
    requires c.Entry?
    ensures Entries(c) + EntriesFrom(t, i + 1) == [(c.key, c.val)] + ToCome(t, i, c, c.next)
  {
    assert [(c.key, c.val)] + Entries(c.next) + EntriesFrom(t, i + 1) == [(c.key, c.val)]
        + (Entries(c.next) + EntriesFrom(t, i + 1));
  }

  /** The pairs of a map whose keys the caller does not delete. */
  function Kept(m: map<Key, Val>, seen: seq<(Key, Val)>, delete: Key -> bool): map<Key, Val>
    decreases |seen|
  {
    if |seen| == 0 then m
    else
      Without(Kept(m, seen[..|seen| - 1], delete), seen[|seen| - 1].0, delete)
  }

  lemma {:induction false} KeptOf(m: map<Key, Val>, seen: seq<(Key, Val)>, delete: Key -> bool, k: Key)
    ensures k in Kept(m, seen, delete) <==> k in m && !(delete(k) && exists v :: (k, v) in seen)
    ensures k in Kept(m, seen, delete) ==> Kept(m, seen, delete)[k] == m[k]
    decreases |seen|
  {
    if |seen| > 0 {
      var n := |seen| - 1;
      KeptOf(m, seen[..n], delete, k);
      assert seen == seen[..n] + [seen[n]];
      if k == seen[n].0 {
        assert (k, seen[n].1) in seen;
      }
    }
  }

  /** With every entry seen, a key stays exactly when it is not chosen. */
  lemma KeptExactly(m: map<Key, Val>, seen: seq<(Key, Val)>, delete: Key -> bool)
    requires forall k, v :: (k, v) in seen <==> k in m && m[k] == v
    ensures forall k :: k in Kept(m, seen, delete) <==> k in m && !delete(k)
    ensures forall k :: k in Kept(m, seen, delete) ==> Kept(m, seen, delete)[k] == m[k]
  {
    forall k: Key
      ensures k in Kept(m, seen, delete) <==> k in m && !delete(k)
      ensures k in Kept(m, seen, delete) ==> Kept(m, seen, delete)[k] == m[k]
    {
      KeptOf(m, seen, delete, k);
      if k in m {
        assert (k, m[k]) in seen;
      }
    }
  }

  /**
   An iteration whose caller deletes any of the entries it is given: every entry of the table is visited
   exactly once, in order, and exactly the chosen entries are gone at the end.
   */
  method IterateAll(d: Dict, delete: Key -> bool) returns (seen: seq<(Key, Val)>)
    requires d.Valid()
    modifies d, d.table
    ensures d.Valid() && seen == EntriesFrom(old(d.table[..]), 0)
    ensures Once(seen) && forall k, v :: (k, v) in seen <==> k in old(d.contents) && old(d.contents)[k] == v
    ensures forall k :: k in d.contents <==> k in old(d.contents) && !delete(k)
    ensures forall k :: k in d.contents ==> d.contents[k] == old(d.contents)[k]
  {
    EntriesExactly(d.hash, d.table[..], d.size, d.sizemask, d.used, d.contents);
    var iter := new DictIterator(d);
    seen := [];
    ghost var all := EntriesFrom(d.table[..], 0);
    assert iter.Remaining() == all;
    assert seen + iter.Remaining() == all;
    var more := true;
    while more
      invariant d.Valid() && iter.Valid() && iter.dict == d && fresh(iter) && d.table == old(d.table)
      invariant seen + iter.Remaining() == all
      invariant !more ==> iter.Remaining() == []
      invariant d.contents == Kept(old(d.contents), seen, delete)
      decreases |iter.Remaining()|, if more then 1 else 0
    {
      more, seen := VisitOne(d, iter, seen, delete);
    }
    assert seen == all;
    KeptExactly(old(d.contents), seen, delete);
  }

  /** One turn of the caller's loop. */
  method VisitOne(d: Dict, iter: DictIterator, seen: seq<(Key, Val)>, delete: Key -> bool)
      returns (more: bool, seen': seq<(Key, Val)>)
    requires d.Valid() && iter.dict == d && iter.Valid()
    modifies d, d.table, iter
    ensures d.Valid() && iter.Valid() && d.table == old(d.table)
    ensures more == (old(iter.Remaining()) != [])
    ensures seen' + iter.Remaining() == seen + old(iter.Remaining())
    ensures if more then |iter.Remaining()| < |old(iter.Remaining())| else iter.Remaining() == []
    ensures if more then |seen'| > 0 && seen == seen'[..|seen'| - 1]
        && d.contents == Without(old(d.contents), seen'[|seen'| - 1].0, delete)
            else seen' == seen && d.contents == old(d.contents)
  {
    hide Holds, EntriesFrom, Entries, Belongs;
    var e := iter.Next();
    if e.None? {
      return false, seen;
    }
    ghost var r := iter.Remaining();
    seen' := seen + [e.value];
    assert seen' + r == seen + ([e.value] + r);
    if delete(e.value.0) {
      DeleteVisited(d, iter);
    }
    more := true;
  }

  function Without(m: map<Key, Val>, k: Key, delete: Key -> bool): map<Key, Val>
  {
    if delete(k) then m - {k} else m
  }

  /** Deleting the entry returned last leaves those still to come alone. */
  method DeleteVisited(d: Dict, iter: DictIterator)
    requires d.Valid() && iter.dict == d && iter.Valid() && iter.entry.Entry?
    modifies d, d.table
    ensures d.Valid() && iter.Valid() && d.table == old(d.table)
    ensures iter.Remaining() == old(iter.Remaining()) && d.contents == old(d.contents) - {iter.entry.key}
  {
    hide Holds, EntriesFrom, Entries, Belongs;
    ghost var t, i := d.table[..], iter.index;
    HoldsSize(d.hash, t, d.size, d.sizemask, d.used, d.contents);
    var ok := d.Delete(iter.entry.key);
    EntriesBefore(t, i, Remove(t[i], iter.entry.key), i + 1);
  }

  // ---------------------------------------------------------------------
  // Sequences of operations
  // ---------------------------------------------------------------------

  datatype Op = AddOp(k: Key, v: Val) | ReplaceOp(k: Key, v: Val) | DeleteOp(k: Key) | FindOp(k: Key)

  datatype Answer = Done(ok: bool) | Found(v: Option<Val>)

  /** The operations on a finite map. */
  function MapStep(m: map<Key, Val>, op: Op): (map<Key, Val>, Answer)
  {
    match op
    case AddOp(k, v) => if k in m then (m, Done(false)) else (m[k := v], Done(true))
    case ReplaceOp(k, v) => (m[k := v], Done(k !in m))
    case DeleteOp(k) => (m - {k}, Done(k in m))
    case FindOp(k) => (m, Found(Get(m, k)))
  }

  function MapRun(m: map<Key, Val>, ops: seq<Op>): (map<Key, Val>, seq<Answer>)
    decreases |ops|
  {
    if |ops| == 0 then (m, [])
    else
      var (m', a) := MapStep(m, ops[0]);
      var (n, rest) := MapRun(m', ops[1..]);
      (n, [a] + rest)
  }

  method RunOne(d: Dict, op: Op) returns (a: Answer)
    requires d.Valid() && d.size <= MAX_BUCKETS
    modifies d, d.table
    ensures d.Valid() && (d.table == old(d.table) || fresh(d.table))
    ensures (d.contents, a) == MapStep(old(d.contents), op)
    ensures d.size == old(d.size) || d.size == DICT_HT_INITIAL_SIZE
        || (d.size == 2 * old(d.size) && old(d.used) == old(d.size))
  {
    match op
    case AddOp(k, v) =>
      var ok := d.Add(k, v);
      a := Done(ok);
    case ReplaceOp(k, v) =>
      var added := d.Replace(k, v);
      a := Done(added);
    case DeleteOp(k) =>
      var ok := d.Delete(k);
      a := Done(ok);
    case FindOp(k) =>
      var v := d.FindEntry(k);
      a := Found(v);
  }

  lemma {:induction false} RunAppend(m: map<Key, Val>, ops: seq<Op>, op: Op)
    ensures var (n, as_) := MapRun(m, ops);
      var (n', a) := MapStep(n, op);
      MapRun(m, ops + [op]) == (n', as_ + [a])
    decreases |ops|
  {
    if |ops| == 0 {
      assert ops + [op] == [op] && [op][1..] == [];
      var a := MapStep(m, op).1;
      assert [a] + [] == [a] && [] + [a] == [a];
    } else {
      var (m', a) := MapStep(m, ops[0]);
      assert (ops + [op])[0] == ops[0] && (ops + [op])[1..] == ops[1..] + [op];
      RunAppend(m', ops[1..], op);
      var (n, rest) := MapRun(m', ops[1..]);
      assert [a] + (rest + [MapStep(n, op).1]) == [a] + rest + [MapStep(n, op).1];
    }
  }

  lemma RunNothing(m: map<Key, Val>)
    ensures MapRun(m, []) == (m, [])
  {
  }

  lemma RunFurther(m: map<Key, Val>, ops: seq<Op>, i: nat)
    requires i < |ops|
    ensures var (n, as_) := MapRun(m, ops[..i]);
      var (n', a) := MapStep(n, ops[i]);
      MapRun(m, ops[..i + 1]) == (n', as_ + [a])
  {
    hide MapRun, MapStep;
    RunAppend(m, ops[..i], ops[i]);
    assert ops[..i + 1] == ops[..i] + [ops[i]];
  }

  lemma HoldsUsed(hash: Key -> nat, t: seq<Chain>, size: nat, mask: nat, used: nat, m: map<Key, Val>)
    requires Holds(hash, t, size, mask, used, m)
    ensures used == |m|
  {
  }

  /** A new dictionary answers every sequence of operations as a map would. */
  method RunAll(hash: Key -> nat, ops: seq<Op>) returns (d: Dict, answers: seq<Answer>)
    requires |ops| <= MAX_BUCKETS / 2
    ensures d.Valid() && (d.contents, answers) == MapRun(map[], ops)
  {
    hide MapRun, MapStep, Holds;
    d := new Dict(hash);
    answers := [];
    var i := 0;
    RunNothing(map[]);
    while i < |ops|
      invariant i <= |ops| && d.Valid() && fresh(d) && fresh(d.table) && |d.contents| <= i && d.size <= MAX_BUCKETS
      invariant (d.contents, answers) == MapRun(map[], ops[..i])
    {
      RunFurther(map[], ops, i);
      StepGrows(d.contents, ops[i]);
      HoldsUsed(d.hash, d.table[..], d.size, d.sizemask, d.used, d.contents);
      var a := RunOne(d, ops[i]);
      answers := answers + [a];
      i := i + 1;
    }
    assert ops[..i] == ops;
  }

  lemma StepGrows(m: map<Key, Val>, op: Op)
    ensures |MapStep(m, op).0| <= |m| + 1
  {
    match op
    case AddOp(k, v) => PutSize(m, k, v);
    case ReplaceOp(k, v) => PutSize(m, k, v);
    case DeleteOp(k) => RemoveSize(m, k);
    case FindOp(k) =>
  }

  lemma PutSize(m: map<Key, Val>, k: Key, v: Val)
    ensures |m[k := v]| <= |m| + 1
  {
    assert m[k := v].Keys == m.Keys + {k};
    assert |m[k := v].Keys| <= |m.Keys| + 1;
  }
}
