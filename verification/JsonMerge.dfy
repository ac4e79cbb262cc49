/**
 JSON Merge Patch (RFC 7396): generating a patch from two trees, and applying one.

 Object members are looked up ignoring case and compared up to their order, so a tree stands for a
 value in which an object is a map from lower-cased names. Sibling names differ even ignoring case.
 */
module JsonMerge {

  import opened Base
  import opened JsonText
  import opened JsonPointer
  import opened JsonBuffered

  // ---------------------------------------------------------------------
  // Names
  // ---------------------------------------------------------------------

  /** strcasecmp: the difference of the first characters that differ when case is ignored. */
  function CaseCompare(a: seq<byte>, b: seq<byte>): int
  {
    if Lower(Head(a)) == Lower(Head(b)) then
      if |a| == 0 || |b| == 0 then 0 else CaseCompare(a[1..], b[1..])
    else Lower(Head(a)) as int - Lower(Head(b)) as int
  }

  /** strcmp */
  function StrCompare(a: seq<byte>, b: seq<byte>): int
  {
    if Head(a) == Head(b) then
      if |a| == 0 || |b| == 0 then 0 else StrCompare(a[1..], b[1..])
    else Head(a) as int - Head(b) as int
  }

  /** A name in lower case. */
  function Folded(s: seq<byte>): (r: seq<byte>)
    ensures |r| == |s|
  {
    seq(|s|, i requires 0 <= i < |s| => Lower(s[i]))
  }

  lemma FoldedFirst(s: seq<byte>)
    ensures NUL !in s ==> NUL !in Folded(s)
    ensures |s| > 0 ==> Folded(s)[0] == Lower(s[0]) && Folded(s)[1..] == Folded(s[1..])
  {
  }

  /** Ignoring case is comparing the lower-cased names. */
  lemma {:induction false} CompareAgrees(a: seq<byte>, b: seq<byte>)
    requires NUL !in a && NUL !in b
    ensures NUL !in Folded(a) && NUL !in Folded(b) && CaseCompare(a, b) == StrCompare(Folded(a), Folded(b))
  {
    FoldedFirst(a);
    FoldedFirst(b);
    if |a| > 0 && |b| > 0 {
      CompareAgrees(a[1..], b[1..]);
    }
  }

  /** a comes before b. */
  predicate Before(a: seq<byte>, b: seq<byte>)
  {
    StrCompare(a, b) < 0
  }

  lemma {:induction false} CompareEqual(a: seq<byte>, b: seq<byte>)
    requires NUL !in a && NUL !in b
    ensures StrCompare(a, b) == 0 <==> a == b
  {
    if |a| > 0 && |b| > 0 {
      CompareEqual(a[1..], b[1..]);
      assert a == [a[0]] + a[1..] && b == [b[0]] + b[1..];
    }
  }

  lemma {:induction false} CompareSwaps(a: seq<byte>, b: seq<byte>)
    requires NUL !in a && NUL !in b
    ensures StrCompare(a, b) == -StrCompare(b, a)
  {
    if |a| > 0 && |b| > 0 {
      CompareSwaps(a[1..], b[1..]);
    }
  }

  lemma {:induction false} BeforeTransitive(a: seq<byte>, b: seq<byte>, c: seq<byte>)
    requires NUL !in a && NUL !in b && NUL !in c && Before(a, b) && Before(b, c)
    ensures Before(a, c)
  {
    if |a| > 0 && |b| > 0 && |c| > 0 && a[0] == b[0] == c[0] {
      BeforeTransitive(a[1..], b[1..], c[1..]);
    }
  }

  // ---------------------------------------------------------------------
  // Values
  // ---------------------------------------------------------------------

  /** What a tree stands for when neither the order of members nor the case of their names matters. */
  datatype Value = Scalar(leaf: Json) | List(values: seq<Value>) | Map(members: map<seq<byte>, Value>)

  function Meaning(j: Json): Value
  {
    match j
    case Array(es) => List(ElementsMeaning(es))
    case Object(ms) => Map(MembersMeaning(ms))
    case _ => Scalar(j)
  }

  function ElementsMeaning(es: Elements): seq<Value>
  {
    if es.NoElement? then [] else [Meaning(es.value)] + ElementsMeaning(es.next)
  }

  function MembersMeaning(ms: Members): map<seq<byte>, Value>
  {
    if ms.NoMember? then map[] else MembersMeaning(ms.next)[Folded(ms.key) := Meaning(ms.value)]
  }

  function Keys(ms: Members): set<seq<byte>>
  {
    if ms.NoMember? then {} else {Folded(ms.key)} + Keys(ms.next)
  }

  /** Names have no NUL and are distinct ignoring case, everywhere in the tree. */
  predicate Tame(j: Json)
  {
    match j
    case Array(es) => TameElements(es)
    case Object(ms) => TameMembers(ms)
    case _ => true
  }

  predicate TameElements(es: Elements)
  {
    es.Element? ==> Tame(es.value) && TameElements(es.next)
  }

  predicate TameMembers(ms: Members)
  {
    ms.Member? ==> NUL !in ms.key && Folded(ms.key) !in Keys(ms.next) && Tame(ms.value) && TameMembers(ms.next)
  }

  lemma {:induction false} MeaningKeys(ms: Members)
    ensures MembersMeaning(ms).Keys == Keys(ms)
  {
    if ms.Member? {
      MeaningKeys(ms.next);
    }
  }

  lemma {:induction false} KeysHaveNoNul(ms: Members, k: seq<byte>)
    requires TameMembers(ms) && k in Keys(ms)
    ensures NUL !in k
  {
    FoldedFirst(ms.key);
    if k != Folded(ms.key) {
      KeysHaveNoNul(ms.next, k);
    }
  }

  // ---------------------------------------------------------------------
  // Sorting
  // ---------------------------------------------------------------------

  function Length(ms: Members): nat
  {
    if ms.NoMember? then 0 else 1 + Length(ms.next)
  }

  function Take(ms: Members, n: nat): (r: Members)
    ensures n <= Length(ms) ==> Length(r) == n
  {
    if n == 0 || ms.NoMember? then NoMember else Member(ms.key, ms.value, Take(ms.next, n - 1))
  }

  function Drop(ms: Members, n: nat): (r: Members)
    ensures n <= Length(ms) ==> Length(r) == Length(ms) - n
  {
    if n == 0 || ms.NoMember? then ms else Drop(ms.next, n - 1)
  }

  /** The test of SortList: every name comes strictly before the next. */
  predicate InOrder(ms: Members)
  {
    ms.Member? && ms.next.Member? ==> CaseBefore(ms.key, ms.next.key) && InOrder(ms.next)
  }

  predicate CaseBefore(a: seq<byte>, b: seq<byte>)
  {
    CaseCompare(a, b) < 0
  }

  /** The merging loop. */
  function Merge(a: Members, b: Members): (r: Members)
    ensures Keys(r) == Keys(a) + Keys(b)
    ensures Length(r) == Length(a) + Length(b)
    ensures SizeOfMembers(r) == SizeOfMembers(a) + SizeOfMembers(b)
    ensures TameMembers(a) && TameMembers(b) && Keys(a) !! Keys(b) ==> TameMembers(r)
  {
    if a.NoMember? then b
    else if b.NoMember? then a
    else if CaseBefore(a.key, b.key) then Member(a.key, a.value, Merge(a.next, b))
    else Member(b.key, b.value, Merge(a, b.next))
  }

  lemma {:induction false} SplitKeys(ms: Members, n: nat)
    requires n <= Length(ms)
    ensures TameMembers(ms) ==>
              TameMembers(Take(ms, n)) && TameMembers(Drop(ms, n)) && Keys(Take(ms, n)) !! Keys(Drop(ms, n))
    ensures Keys(Take(ms, n)) + Keys(Drop(ms, n)) == Keys(ms)
    ensures SizeOfMembers(Take(ms, n)) + SizeOfMembers(Drop(ms, n)) == SizeOfMembers(ms)
  {
    if n > 0 {
      SplitKeys(ms.next, n - 1);
    }
  }

  /** cJSONUtils_SortList */
  function Sort(ms: Members): (r: Members)
    ensures Keys(r) == Keys(ms) && Length(r) == Length(ms) && SizeOfMembers(r) == SizeOfMembers(ms)
    ensures TameMembers(ms) ==> TameMembers(r)
    decreases Length(ms)
  {
    if Length(ms) <= 1 || InOrder(ms) then ms
    else
      var h := (Length(ms) + 1) / 2;
      SplitKeys(ms, h);
      Merge(Sort(Take(ms, h)), Sort(Drop(ms, h)))
  }

  // --- sorting keeps the meaning and puts the names in order

  lemma {:induction false} MergeMeaning(a: Members, b: Members)
    requires TameMembers(a) && TameMembers(b) && Keys(a) !! Keys(b)
    ensures MembersMeaning(Merge(a, b)) == MembersMeaning(a) + MembersMeaning(b)
  {
    MeaningKeys(a);
    MeaningKeys(b);
    if a.Member? && b.Member? {
      if CaseBefore(a.key, b.key) {
        MergeMeaning(a.next, b);
        MapPutLeft(MembersMeaning(a.next), MembersMeaning(b), Folded(a.key), Meaning(a.value));
      } else {
        MergeMeaning(a, b.next);
        MapPutRight(MembersMeaning(a), MembersMeaning(b.next), Folded(b.key), Meaning(b.value));
      }
    }
  }

  lemma MapPutLeft(m: map<seq<byte>, Value>, n: map<seq<byte>, Value>, k: seq<byte>, v: Value)
    requires k !in n
    ensures (m + n)[k := v] == m[k := v] + n
  {
  }

  lemma MapPutRight(m: map<seq<byte>, Value>, n: map<seq<byte>, Value>, k: seq<byte>, v: Value)
    ensures (m + n)[k := v] == m + n[k := v]
  {
  }

  lemma {:induction false} SplitMeaning(ms: Members, n: nat)
    requires TameMembers(ms) && n <= Length(ms)
    ensures MembersMeaning(Take(ms, n)) + MembersMeaning(Drop(ms, n)) == MembersMeaning(ms)
  {
    SplitKeys(ms, n);
    if n > 0 {
      SplitMeaning(ms.next, n - 1);
      SplitKeys(ms.next, n - 1);
      MeaningKeys(Drop(ms, n));
      MapPutLeft(MembersMeaning(Take(ms.next, n - 1)), MembersMeaning(Drop(ms, n)), Folded(ms.key), Meaning(ms.value));
    }
  }

  lemma {:induction false} SortMeaning(ms: Members)
    requires TameMembers(ms)
    ensures MembersMeaning(Sort(ms)) == MembersMeaning(ms)
    decreases Length(ms)
  {
    if Length(ms) > 1 && !InOrder(ms) {
      var h := (Length(ms) + 1) / 2;
      SplitKeys(ms, h);
      SplitMeaning(ms, h);
      SortMeaning(Take(ms, h));
      SortMeaning(Drop(ms, h));
      MergeMeaning(Sort(Take(ms, h)), Sort(Drop(ms, h)));
    }
  }

  lemma CaseSwaps(a: seq<byte>, b: seq<byte>)
    requires NUL !in a && NUL !in b
    ensures CaseCompare(a, b) == -CaseCompare(b, a)
  {
    CompareAgrees(a, b);
    CompareAgrees(b, a);
    CompareSwaps(Folded(a), Folded(b));
  }

  lemma CaseBeforeIs(a: seq<byte>, b: seq<byte>)
    requires NUL !in a && NUL !in b
    ensures NUL !in Folded(a) && NUL !in Folded(b) && (CaseBefore(a, b) <==> Before(Folded(a), Folded(b)))
    ensures Folded(a) != Folded(b) ==> Before(Folded(a), Folded(b)) || Before(Folded(b), Folded(a))
  {
    CompareAgrees(a, b);
    CompareEqual(Folded(a), Folded(b));
    CompareSwaps(Folded(a), Folded(b));
  }

  /** No name comes before the one in front of it, ignoring case. */
  predicate Ascending(ms: Members)
  {
    ms.Member? && ms.next.Member? ==> CaseCompare(ms.key, ms.next.key) <= 0 && Ascending(ms.next)
  }

  /** Names as C strings, which have no NUL. */
  predicate CNames(ms: Members)
  {
    ms.Member? ==> NUL !in ms.key && CNames(ms.next)
  }

  lemma {:induction false} MergeCNames(a: Members, b: Members)
    requires CNames(a) && CNames(b)
    ensures CNames(Merge(a, b))
  {
    hide CaseBefore;
    if a.Member? && b.Member? {
      if CaseBefore(a.key, b.key) {
        MergeCNames(a.next, b);
      } else {
        MergeCNames(a, b.next);
      }
    }
  }

  lemma {:induction false} SplitCNames(ms: Members, n: nat)
    requires CNames(ms)
    ensures CNames(Take(ms, n)) && CNames(Drop(ms, n))
  {
    if ms.Member? && n > 0 {
      SplitCNames(ms.next, n - 1);
    }
  }

  /** The head of a merge is the smaller of the two heads. */
  lemma {:induction false} MergeAscends(a: Members, b: Members)
    requires CNames(a) && CNames(b) && Ascending(a) && Ascending(b)
    ensures Ascending(Merge(a, b))
  {
    if a.Member? && b.Member? {
      CaseSwaps(a.key, b.key);
      if CaseBefore(a.key, b.key) {
        MergeAscends(a.next, b);
      } else {
        MergeAscends(a, b.next);
      }
    }
  }

  lemma {:induction false} InOrderAscends(ms: Members)
    requires InOrder(ms)
    ensures Ascending(ms)
  {
    hide CaseCompare;
    if ms.Member? {
      InOrderAscends(ms.next);
    }
  }

  /** Sorting puts the names in order, whatever names come up more than once. */
  lemma {:induction false} SortAscends(ms: Members)
    requires CNames(ms)
    ensures Ascending(Sort(ms)) && CNames(Sort(ms))
    decreases Length(ms)
  {
    hide InOrder, Ascending, CNames, Merge, Take, Drop;
    if Length(ms) <= 1 {
      ShortInOrder(ms);
      InOrderAscends(ms);
    } else if InOrder(ms) {
      InOrderAscends(ms);
    } else {
      var h := (Length(ms) + 1) / 2;
      SplitCNames(ms, h);
      SortAscends(Take(ms, h));
      SortAscends(Drop(ms, h));
      MergeCNames(Sort(Take(ms, h)), Sort(Drop(ms, h)));
      MergeAscends(Sort(Take(ms, h)), Sort(Drop(ms, h)));
    }
  }

  lemma ShortInOrder(ms: Members)
    requires Length(ms) <= 1
    ensures InOrder(ms)
  {
    var n := if ms.Member? then Length(ms.next) else 0;
  }

  lemma {:induction false} TameCNames(ms: Members)
    requires TameMembers(ms)
    ensures CNames(ms)
  {
    hide Folded;
    if ms.Member? {
      TameCNames(ms.next);
    }
  }

  lemma {:induction false} AscendingDistinct(ms: Members)
    requires TameMembers(ms) && Ascending(ms)
    ensures InOrder(ms)
  {
    if ms.Member? && ms.next.Member? {
      AscendingDistinct(ms.next);
      CompareAgrees(ms.key, ms.next.key);
      CompareEqual(Folded(ms.key), Folded(ms.next.key));
    }
  }

  /** Distinct names are then in strict order. */
  lemma SortInOrder(ms: Members)
    requires TameMembers(ms)
    ensures InOrder(Sort(ms))
  {
    hide InOrder, TameMembers, Keys, Sort, CNames, Ascending;
    TameCNames(ms);
    SortAscends(ms);
    AscendingDistinct(Sort(ms));
  }

  /** The members with their values, whatever their order. */
  function Items(ms: Members): multiset<(seq<byte>, Json)>
  {
    if ms.NoMember? then multiset{} else multiset{(ms.key, ms.value)} + Items(ms.next)
  }

  lemma {:induction false} MergeItems(a: Members, b: Members)
    ensures Items(Merge(a, b)) == Items(a) + Items(b)
  {
    hide CaseBefore;
    if a.Member? && b.Member? {
      if CaseBefore(a.key, b.key) {
        MergeItems(a.next, b);
      } else {
        MergeItems(a, b.next);
      }
    }
  }

  lemma {:induction false} SplitItems(ms: Members, n: nat)
    ensures Items(Take(ms, n)) + Items(Drop(ms, n)) == Items(ms)
  {
    if ms.Member? && n > 0 {
      SplitItems(ms.next, n - 1);
      ItemsSum(multiset{(ms.key, ms.value)}, Items(Take(ms.next, n - 1)), Items(Drop(ms.next, n - 1)));
    } else {
      NoItems(Items(ms));
    }
  }

  lemma ItemsSum(x: multiset<(seq<byte>, Json)>, a: multiset<(seq<byte>, Json)>, b: multiset<(seq<byte>, Json)>)
    ensures (x + a) + b == x + (a + b)
  {
  }

  lemma NoItems(a: multiset<(seq<byte>, Json)>)
    ensures multiset{} + a == a && a + multiset{} == a
  {
  }

  /** Sorting loses no member and makes up none. */
  lemma {:induction false} SortItems(ms: Members)
    ensures Items(Sort(ms)) == Items(ms)
    decreases Length(ms)
  {
    hide InOrder, Items, Merge, Take, Drop;
    if Length(ms) > 1 && !InOrder(ms) {
      var h := (Length(ms) + 1) / 2;
      SplitItems(ms, h);
      SortItems(Take(ms, h));
      SortItems(Drop(ms, h));
      MergeItems(Sort(Take(ms, h)), Sort(Drop(ms, h)));
    }
  }

  /** In a sorted list every later name comes after the first. */
  lemma {:induction false} HeadLeast(ms: Members, k: seq<byte>)
    requires TameMembers(ms) && InOrder(ms) && ms.Member? && k in Keys(ms.next)
    ensures NUL !in Folded(ms.key) && NUL !in k && Before(Folded(ms.key), k)
  {
    KeysHaveNoNul(ms.next, k);
    assert TameMembers(ms.next);
    CaseBeforeIs(ms.key, ms.next.key);
    if k != Folded(ms.next.key) {
      HeadLeast(ms.next, k);
      BeforeTransitive(Folded(ms.key), Folded(ms.next.key), k);
    }
  }

  // ---------------------------------------------------------------------
  // cJSONUtils_Compare
  // ---------------------------------------------------------------------

  /** 0 when the trees are equal up to the order of members, otherwise an error code. */
  function Compare(a: Json, b: Json): int
    decreases Size(a), 1
  {
    match (a, b)
    case (Number(m), Number(n)) => if m != n then -2 else 0
    case (String(s), String(t)) => if s != t then -3 else 0
    case (Array(es), Array(fs)) => CompareElements(es, fs)
    case (Object(ms), Object(ns)) => CompareMembers(Sort(ms), Sort(ns))
    case (Null, Null) => 0
    case (True, True) => 0
    case (False, False) => 0
    case _ => -1
  }

  function CompareElements(es: Elements, fs: Elements): int
    decreases SizeOfElements(es), 0
  {
    if es.Element? && fs.Element? then
      var err := Compare(es.value, fs.value);
      if err != 0 then err else CompareElements(es.next, fs.next)
    else if es.Element? || fs.Element? then -4 else 0
  }

  function CompareMembers(ms: Members, ns: Members): int
    decreases SizeOfMembers(ms), 0
  {
    if ms.Member? && ns.Member? then
      if CaseCompare(ms.key, ns.key) != 0 then -6
      else
        var err := Compare(ms.value, ns.value);
        if err != 0 then err else CompareMembers(ms.next, ns.next)
    else if ms.Member? || ns.Member? then -5 else 0
  }

  /** Compare decides equality of meaning. */
  lemma {:induction false} CompareDecides(a: Json, b: Json)
    requires Tame(a) && Tame(b)
    ensures Compare(a, b) == 0 <==> Meaning(a) == Meaning(b)
    decreases Size(a), 1
  {
    match (a, b)
    case (Array(es), Array(fs)) =>
      CompareElementsDecides(es, fs);
    case (Object(ms), Object(ns)) =>
      SortMeaning(ms);
      SortMeaning(ns);
      SortInOrder(ms);
      SortInOrder(ns);
      CompareMembersDecides(Sort(ms), Sort(ns));
    case _ =>
  }

  lemma {:induction false} CompareElementsDecides(es: Elements, fs: Elements)
    requires TameElements(es) && TameElements(fs)
    ensures CompareElements(es, fs) == 0 <==> ElementsMeaning(es) == ElementsMeaning(fs)
    decreases SizeOfElements(es), 0
  {
    if es.Element? && fs.Element? {
      CompareDecides(es.value, fs.value);
      CompareElementsDecides(es.next, fs.next);
      var x, xs := Meaning(es.value), ElementsMeaning(es.next);
      var y, ys := Meaning(fs.value), ElementsMeaning(fs.next);
      assert ([x] + xs)[0] == x && ([x] + xs)[1..] == xs && ([y] + ys)[0] == y && ([y] + ys)[1..] == ys;
    }
  }

  lemma {:induction false} CompareMembersDecides(ms: Members, ns: Members)
    requires TameMembers(ms) && TameMembers(ns) && InOrder(ms) && InOrder(ns)
    ensures CompareMembers(ms, ns) == 0 <==> MembersMeaning(ms) == MembersMeaning(ns)
    decreases SizeOfMembers(ms), 0
  {
    MeaningKeys(ms);
    MeaningKeys(ns);
    if ms.Member? && ns.Member? {
      CompareAgrees(ms.key, ns.key);
      CompareEqual(Folded(ms.key), Folded(ns.key));
      if Folded(ms.key) == Folded(ns.key) {
        CompareDecides(ms.value, ns.value);
        CompareMembersDecides(ms.next, ns.next);
        MeaningKeys(ms.next);
        MeaningKeys(ns.next);
        SamePut(MembersMeaning(ms.next), MembersMeaning(ns.next), Folded(ms.key), Meaning(ms.value), Meaning(ns.value));
      } else {
        DifferentHeads(ms, ns);
      }
    } else if ms.Member? {
      assert Folded(ms.key) in MembersMeaning(ms).Keys;
    } else if ns.Member? {
      assert Folded(ns.key) in MembersMeaning(ns).Keys;
    }
  }

  lemma SamePut(m: map<seq<byte>, Value>, n: map<seq<byte>, Value>, k: seq<byte>, v: Value, w: Value)
    requires k !in m && k !in n
    ensures m[k := v] == n[k := w] <==> m == n && v == w
  {
    if m[k := v] == n[k := w] {
      assert m[k := v][k] == v && n[k := w][k] == w;
      assert m == m[k := v] - {k} && n == n[k := w] - {k};
    }
  }

  /** Sorted lists with different heads have different names. */
  lemma DifferentHeads(ms: Members, ns: Members)
    requires TameMembers(ms) && TameMembers(ns) && InOrder(ms) && InOrder(ns)
    requires ms.Member? && ns.Member? && Folded(ms.key) != Folded(ns.key)
    ensures Keys(ms) != Keys(ns)
  {
    var k, l := Folded(ms.key), Folded(ns.key);
    FoldedFirst(ms.key);
    FoldedFirst(ns.key);
    CompareSwaps(k, l);
    if k in Keys(ns.next) && l in Keys(ms.next) {
      HeadLeast(ms, l);
      HeadLeast(ns, k);
    }
  }

  // ---------------------------------------------------------------------
  // cJSONUtils_MergePatch
  // ---------------------------------------------------------------------

  /** Detach the first member with a name, ignoring case: its value if there is one, and the others. */
  function Detach(ms: Members, k: seq<byte>): (Option<Json>, Members)
  {
    if ms.NoMember? then (None, NoMember)
    else if CaseCompare(ms.key, k) == 0 then (Some(ms.value), ms.next)
    else (Detach(ms.next, k).0, Member(ms.key, ms.value, Detach(ms.next, k).1))
  }

  /** cJSON_AddItemToObject */
  function Append(ms: Members, k: seq<byte>, v: Json): Members
  {
    if ms.NoMember? then Member(k, v, NoMember) else Member(ms.key, ms.value, Append(ms.next, k, v))
  }

  function MembersOf(target: Option<Json>): Members
  {
    if target.Some? && target.value.Object? then target.value.members else NoMember
  }

  function MergePatch(target: Option<Json>, patch: Json): Json
    decreases patch, 1
  {
    if patch.Object? then Object(MergeMembers(MembersOf(target), patch.members)) else patch
  }

  function MergeMembers(ms: Members, patch: Members): Members
    decreases patch, 0
  {
    if patch.NoMember? then ms
    else if patch.value.Null? then MergeMembers(Detach(ms, patch.key).1, patch.next)
    else
      var (old_, rest) := Detach(ms, patch.key);
      MergeMembers(Append(rest, patch.key, MergePatch(old_, patch.value)), patch.next)
  }

  // --- the procedure of section 2 of RFC 7396, on maps

  function MapOf(target: Option<Value>): map<seq<byte>, Value>
  {
    if target.Some? && target.value.Map? then target.value.members else map[]
  }

  function Find(m: map<seq<byte>, Value>, k: seq<byte>): Option<Value>
  {
    if k in m then Some(m[k]) else None
  }

  /**
   If the patch is an object, merge its pairs into the target, taken as an empty object if it is none; else
   the patch.
   */
  function Rfc(target: Option<Value>, patch: Json): Value
    decreases patch, 1
  {
    if patch.Object? then Map(RfcPairs(MapOf(target), patch.members)) else Meaning(patch)
  }

  /** For each name/value pair: null removes the name, any other value is merged into what the name has. */
  function RfcPairs(m: map<seq<byte>, Value>, patch: Members): map<seq<byte>, Value>
    decreases patch, 0
  {
    if patch.NoMember? then m
    else
      var k := Folded(patch.key);
      RfcPairs(if patch.value.Null? then m - {k} else m[k := Rfc(Find(m, k), patch.value)], patch.next)
  }

  lemma CaseEqualIsEqual(a: seq<byte>, b: seq<byte>)
    requires NUL !in a && NUL !in b
    ensures CaseCompare(a, b) == 0 <==> Folded(a) == Folded(b)
  {
    CompareAgrees(a, b);
    CompareEqual(Folded(a), Folded(b));
  }

  lemma {:induction false} DetachCorrect(ms: Members, name: seq<byte>)
    requires TameMembers(ms) && NUL !in name
    ensures var (v, rest) := Detach(ms, name);
      var k := Folded(name);
      && TameMembers(rest) && Keys(rest) == Keys(ms) - {k}
      && MembersMeaning(rest) == MembersMeaning(ms) - {k}
      && (v.Some? <==> k in MembersMeaning(ms))
      && (v.Some? ==> Tame(v.value) && Meaning(v.value) == MembersMeaning(ms)[k])
  {
    hide Folded, CaseCompare;
    if ms.Member? {
      var k, l := Folded(name), Folded(ms.key);
      CaseEqualIsEqual(ms.key, name);
      MeaningKeys(ms.next);
      if l != k {
        DetachCorrect(ms.next, name);
        assert MembersMeaning(ms) - {k} == (MembersMeaning(ms.next) - {k})[l := Meaning(ms.value)];
      } else {
        assert MembersMeaning(ms) - {k} == MembersMeaning(ms.next);
      }
    }
  }

  lemma {:induction false} AppendCorrect(ms: Members, name: seq<byte>, v: Json)
    requires TameMembers(ms) && NUL !in name && Folded(name) !in Keys(ms) && Tame(v)
    ensures TameMembers(Append(ms, name, v)) && Keys(Append(ms, name, v)) == Keys(ms) + {Folded(name)}
    ensures MembersMeaning(Append(ms, name, v)) == MembersMeaning(ms)[Folded(name) := Meaning(v)]
  {
    hide Folded;
    if ms.Member? {
      var k, l := Folded(name), Folded(ms.key);
      AppendCorrect(ms.next, name, v);
      assert MembersMeaning(ms.next)[k := Meaning(v)][l := Meaning(ms.value)]
          == MembersMeaning(ms.next)[l := Meaning(ms.value)][k := Meaning(v)];
    }
  }

  /** What a patch must be: no NUL in a name, distinct names only where a value is put in as it is. */
  predicate Mergeable(patch: Json)
  {
    if patch.Object? then MergeableMembers(patch.members) else Tame(patch)
  }

  predicate MergeableMembers(patch: Members)
  {
    patch.Member? ==> NUL !in patch.key && Mergeable(patch.value) && MergeableMembers(patch.next)
  }

  lemma {:induction false} TameMergeable(j: Json)
    requires Tame(j)
    ensures Mergeable(j)
    decreases j, 1
  {
    if j.Object? {
      TameMembersMergeable(j.members);
    }
  }

  lemma {:induction false} TameMembersMergeable(ms: Members)
    requires TameMembers(ms)
    ensures MergeableMembers(ms)
    decreases ms, 0
  {
    if ms.Member? {
      TameMergeable(ms.value);
      TameMembersMergeable(ms.next);
    }
  }

  /** MergePatch is the procedure of the RFC, and its result has distinct names again. */
  lemma {:induction false} MergeRefines(target: Option<Json>, patch: Json)
    requires (target.Some? ==> Tame(target.value)) && Mergeable(patch)
    ensures Tame(MergePatch(target, patch))
    ensures Meaning(MergePatch(target, patch)) == Rfc(if target.Some? then Some(Meaning(target.value)) else None, patch)
    decreases patch, 1
  {
    if patch.Object? {
      MembersRefine(MembersOf(target), patch.members);
    }
  }

  lemma {:induction false} MembersRefine(ms: Members, patch: Members)
    requires TameMembers(ms) && MergeableMembers(patch)
    ensures TameMembers(MergeMembers(ms, patch))
    ensures MembersMeaning(MergeMembers(ms, patch)) == RfcPairs(MembersMeaning(ms), patch)
    decreases patch, 0
  {
    hide Detach, Append, Rfc, MergePatch, Keys, Meaning, MembersMeaning, Folded;
    if patch.Member? {
      var k := Folded(patch.key);
      DetachCorrect(ms, patch.key);
      var (v, rest) := Detach(ms, patch.key);
      if patch.value.Null? {
        MembersRefine(rest, patch.next);
      } else {
        MergeRefines(v, patch.value);
        var merged := MergePatch(v, patch.value);
        AppendCorrect(rest, patch.key, merged);
        MembersRefine(Append(rest, patch.key, merged), patch.next);
        assert (MembersMeaning(ms) - {k})[k := Meaning(merged)] == MembersMeaning(ms)[k := Meaning(merged)];
      }
    }
  }

  // ---------------------------------------------------------------------
  // cJSONUtils_GenerateMergePatch
  // ---------------------------------------------------------------------

  function GenerateMergePatch(from: Json, to: Json): Option<Json>
    decreases Size(from) + Size(to), 1
  {
    if !to.Object? || !from.Object? then Some(to)
    else
      var patch := GenerateMembers(Sort(from.members), Sort(to.members));
      if patch.NoMember? then None else Some(Object(patch))
  }

  /** The loop over both sorted lists. */
  function GenerateMembers(from: Members, to: Members): Members
    decreases SizeOfMembers(from) + SizeOfMembers(to), 0
  {
    if from.NoMember? && to.NoMember? then NoMember
    else
      var compare := if from.Member? then (if to.Member? then StrCompare(from.key, to.key) else -1) else 1;
      if compare < 0 then
        Member(from.key, Null, GenerateMembers(from.next, to))
      else if compare > 0 then
        Member(to.key, to.value, GenerateMembers(from, to.next))
      else
        var rest := GenerateMembers(from.next, to.next);
        if Compare(from.value, to.value) == 0 then rest
        else
          match GenerateMergePatch(from.value, to.value)
          case None => rest
          case Some(p) => Member(to.key, p, rest)
  }

  // --- what the loop emits

  /** The three ways the loop goes on. */
  datatype Turn = Removed | Added | Shared

  function TurnOf(from: Members, to: Members): Turn
    requires from.Member? || to.Member?
  {
    var compare := if from.Member? then (if to.Member? then StrCompare(from.key, to.key) else -1) else 1;
    if compare < 0 then Removed else if compare > 0 then Added else Shared
  }

  /** The names of a generated patch are those of one side or of the other. */
  lemma {:induction false} GeneratedKeys(from: Members, to: Members)
    ensures Keys(GenerateMembers(from, to)) <= Keys(from) + Keys(to)
    decreases SizeOfMembers(from) + SizeOfMembers(to)
  {
    hide Folded, StrCompare, Compare, GenerateMergePatch;
    if from.Member? || to.Member? {
      match TurnOf(from, to)
      case Removed => GeneratedKeys(from.next, to);
      case Added => GeneratedKeys(from, to.next);
      case Shared => GeneratedKeys(from.next, to.next);
    }
  }

  /** A generated patch can be merged, even if a name comes up twice in it. */
  lemma {:induction false} GeneratedMergeable(from: Json, to: Json)
    requires Tame(from) && Tame(to)
    ensures GenerateMergePatch(from, to).Some? ==> Mergeable(GenerateMergePatch(from, to).value)
    decreases Size(from) + Size(to), 1
  {
    TameMergeable(to);
    if from.Object? && to.Object? {
      GeneratedMembersMergeable(Sort(from.members), Sort(to.members));
    }
  }

  lemma {:induction false} GeneratedMembersMergeable(from: Members, to: Members)
    requires TameMembers(from) && TameMembers(to)
    ensures MergeableMembers(GenerateMembers(from, to))
    decreases SizeOfMembers(from) + SizeOfMembers(to), 0
  {
    hide Folded, Keys, StrCompare, Compare;
    if from.Member? || to.Member? {
      match TurnOf(from, to)
      case Removed => GeneratedMembersMergeable(from.next, to);
      case Added =>
        TameMergeable(to.value);
        GeneratedMembersMergeable(from, to.next);
      case Shared =>
        GeneratedMembersMergeable(from.next, to.next);
        GeneratedMergeable(from.value, to.value);
    }
  }

  // --- when there is no patch

  /** The names of a list as they are written. */
  function Names(ms: Members): set<seq<byte>>
  {
    if ms.NoMember? then {} else {ms.key} + Names(ms.next)
  }

  lemma {:induction false} NamesFold(ms: Members, name: seq<byte>)
    requires name in Names(ms)
    ensures Folded(name) in Keys(ms)
  {
    hide Folded;
    if name != ms.key {
      NamesFold(ms.next, name);
    }
  }

  lemma {:induction false} MergeNames(a: Members, b: Members)
    ensures Names(Merge(a, b)) == Names(a) + Names(b)
  {
    hide CaseBefore, Folded;
    if a.Member? && b.Member? {
      if CaseBefore(a.key, b.key) {
        MergeNames(a.next, b);
      } else {
        MergeNames(a, b.next);
      }
    }
  }

  lemma {:induction false} SplitNames(ms: Members, n: nat)
    ensures Names(Take(ms, n)) + Names(Drop(ms, n)) == Names(ms)
  {
    if ms.Member? && n > 0 {
      SplitNames(ms.next, n - 1);
    }
  }

  lemma {:induction false} SortNames(ms: Members)
    ensures Names(Sort(ms)) == Names(ms)
    decreases Length(ms)
  {
    hide Names, TameMembers, Keys, InOrder, Merge, Take, Drop;
    if Length(ms) > 1 && !InOrder(ms) {
      var h := (Length(ms) + 1) / 2;
      SplitKeys(ms, h);
      SplitNames(ms, h);
      SortNames(Take(ms, h));
      SortNames(Drop(ms, h));
      MergeNames(Sort(Take(ms, h)), Sort(Drop(ms, h)));
    }
  }

  /** The patch is absent exactly for two objects with the same meaning and the same names, case included. */
  lemma {:induction false} GeneratedAbsent(from: Json, to: Json)
    requires Tame(from) && Tame(to)
    ensures GenerateMergePatch(from, to).None? <==>
              from.Object? && to.Object? && Meaning(from) == Meaning(to) && Names(from.members) == Names(to.members)
    decreases Size(from) + Size(to), 1
  {
    if from.Object? && to.Object? {
      SortInOrder(from.members);
      SortInOrder(to.members);
      SortMeaning(from.members);
      SortMeaning(to.members);
      SortNames(from.members);
      SortNames(to.members);
      GeneratedNothing(Sort(from.members), Sort(to.members));
    }
  }

  lemma {:induction false} GeneratedNothing(from: Members, to: Members)
    requires TameMembers(from) && TameMembers(to) && InOrder(from) && InOrder(to)
    ensures GenerateMembers(from, to).NoMember? <==>
              MembersMeaning(from) == MembersMeaning(to) && Names(from) == Names(to)
    decreases SizeOfMembers(from) + SizeOfMembers(to), 0
  {
    hide InOrder, Folded, StrCompare, Compare, GenerateMergePatch, MembersMeaning, Meaning, CaseCompare;
    if from.Member? && to.Member? {
      var k := Folded(from.key);
      if TurnOf(from, to).Shared? {
        NothingShared(from, to);
      } else {
        OtherHeads(from, to);
      }
    }
  }

  /** Lists whose heads are different names do not have both the same names and the same names ignoring case. */
  lemma OtherHeads(from: Members, to: Members)
    requires TameMembers(from) && TameMembers(to) && InOrder(from) && InOrder(to)
    requires from.Member? && to.Member? && !TurnOf(from, to).Shared?
    ensures !(MembersMeaning(from) == MembersMeaning(to) && Names(from) == Names(to))
  {
    hide InOrder, Folded, StrCompare, Compare, MembersMeaning, CaseCompare;
    CompareEqual(from.key, to.key);
    MeaningKeys(from);
    MeaningKeys(to);
    if Folded(from.key) != Folded(to.key) {
      DifferentHeads(from, to);
    } else if from.key in Names(to) {
      NamesFold(to.next, from.key);
    }
  }

  lemma {:induction false} NothingShared(from: Members, to: Members)
    requires TameMembers(from) && TameMembers(to) && InOrder(from) && InOrder(to)
    requires from.Member? && to.Member? && TurnOf(from, to).Shared?
    ensures GenerateMembers(from, to).NoMember? <==>
              MembersMeaning(from) == MembersMeaning(to) && Names(from) == Names(to)
    decreases SizeOfMembers(from) + SizeOfMembers(to), 0, 0
  {
    hide Folded, StrCompare, Compare, GenerateMergePatch, Meaning, CaseCompare;
    CompareEqual(from.key, to.key);
    InOrderNext(from);
    InOrderNext(to);
    GeneratedNothing(from.next, to.next);
    CompareDecides(from.value, to.value);
    GeneratedAbsent(from.value, to.value);
    MeaningKeys(from.next);
    MeaningKeys(to.next);
    SamePut(MembersMeaning(from.next), MembersMeaning(to.next), Folded(from.key), Meaning(from.value),
            Meaning(to.value));
    SameNames(from, to);
  }

  lemma InOrderNext(ms: Members)
    requires InOrder(ms) && ms.Member?
    ensures InOrder(ms.next)
  {
  }

  /** Of two lists that start with the same name, the others are the same names or not. */
  lemma SameNames(from: Members, to: Members)
    requires TameMembers(from) && TameMembers(to) && from.Member? && to.Member? && from.key == to.key
    ensures Names(from) == Names(to) <==> Names(from.next) == Names(to.next)
  {
    hide Folded;
    if from.key in Names(from.next) {
      NamesFold(from.next, from.key);
    }
    if to.key in Names(to.next) {
      NamesFold(to.next, to.key);
    }
    assert Names(from) - {from.key} == Names(from.next) && Names(to) - {to.key} == Names(to.next);
  }

  // ---------------------------------------------------------------------
  // Applying a generated patch
  // ---------------------------------------------------------------------

  /** No member of an object, or of an object in it, is null. */
  predicate NoNulls(v: Value)
  {
    v.Map? ==> forall k :: k in v.members ==> v.members[k] != Scalar(Null) && NoNulls(v.members[k])
  }

  /** Names that a patch does not mention keep what they have. */
  lemma {:induction false} UntouchedNames(m: map<seq<byte>, Value>, patch: Members, k: seq<byte>)
    requires k !in Keys(patch)
    ensures Find(RfcPairs(m, patch), k) == Find(m, k)
    decreases patch
  {
    hide Folded;
    if patch.Member? {
      var l := Folded(patch.key);
      UntouchedNames(if patch.value.Null? then m - {l} else m[l := Rfc(Find(m, l), patch.value)], patch.next, k);
    }
  }

  // --- a tree merged into nothing

  lemma NoNullsPut(m: map<seq<byte>, Value>, k: seq<byte>, v: Value)
    requires k !in m
    ensures NoNulls(Map(m[k := v])) <==> NoNulls(Map(m)) && v != Scalar(Null) && NoNulls(v)
  {
    var n := m[k := v];
    if NoNulls(Map(n)) {
      assert n[k] == v;
      forall i | i in m.Keys ensures m[i] != Scalar(Null) && NoNulls(m[i]) {
        assert n[i] == m[i];
      }
    }
  }

  /** Merged into nothing, an object keeps its meaning exactly when it has no nulls. */
  lemma {:induction false} FreshExactly(j: Json, target: Option<Value>)
    requires Tame(j) && (target.None? || !target.value.Map?)
    ensures Rfc(target, j) == Meaning(j) <==> NoNulls(Meaning(j))
    decreases j, 1
  {
    if j.Object? {
      FreshMembersExactly(j.members, map[]);
      assert map[] + MembersMeaning(j.members) == MembersMeaning(j.members);
    }
  }

  lemma {:induction false} FreshMembersExactly(ms: Members, base: map<seq<byte>, Value>)
    requires TameMembers(ms) && base.Keys !! Keys(ms)
    ensures RfcPairs(base, ms) == base + MembersMeaning(ms) <==> NoNulls(Map(MembersMeaning(ms)))
    decreases ms, 0
  {
    hide Folded;
    if ms.Member? {
      var k, v := Folded(ms.key), Meaning(ms.value);
      MeaningKeys(ms.next);
      NoNullsPut(MembersMeaning(ms.next), k, v);
      if ms.value.Null? {
        UntouchedNames(base - {k}, ms.next, k);
        assert k in base + MembersMeaning(ms);
        assert k !in base - {k};
      } else {
        var w := Rfc(None, ms.value);
        FreshExactly(ms.value, None);
        MeaningNull(ms.value);
        FreshMembersExactly(ms.next, base[k := w]);
        UntouchedNames(base[k := w], ms.next, k);
        MapMove(base, MembersMeaning(ms.next), k, v);
        assert Find(base + MembersMeaning(ms), k) == Some(v);
      }
    } else {
      assert base + map[] == base;
    }
  }

  lemma MeaningNull(j: Json)
    ensures Meaning(j) == Scalar(Null) <==> j.Null?
  {
  }

  /** A name can be counted to either side of a sum of maps. */
  lemma MapMove(m: map<seq<byte>, Value>, n: map<seq<byte>, Value>, k: seq<byte>, v: Value)
    requires k !in m && k !in n
    ensures m[k := v] + n == m + n[k := v]
  {
  }

  // --- a generated patch applied

  /**
   The condition under which merging the generated patch into the source gives the target: along the
   walk by strcmp, a member that is added is not yet to come in the source under the same name ignoring
   case and has no null in it; a member that both have is unchanged, or not null and itself such a pair.
   */
  predicate TakesTo(from: Json, to: Json)
    decreases Size(from) + Size(to), 1
  {
    if !to.Object? then true
    else if !from.Object? then NoNulls(Meaning(to))
    else TakesMembers(Sort(from.members), Sort(to.members))
  }

  predicate TakesMembers(from: Members, to: Members)
    decreases SizeOfMembers(from) + SizeOfMembers(to), 0
  {
    from.Member? || to.Member? ==>
      match TurnOf(from, to)
      case Removed => TakesMembers(from.next, to)
      case Added =>
        && Folded(to.key) !in Keys(from) && !to.value.Null? && NoNulls(Meaning(to.value))
        && TakesMembers(from, to.next)
      case Shared =>
        && (Compare(from.value, to.value) == 0 || (!to.value.Null? && TakesTo(from.value, to.value)))
        && TakesMembers(from.next, to.next)
  }

  /** With the rest as it should be, a map is right exactly when it is right at one name. */
  lemma RightAt(r: map<seq<byte>, Value>, base: map<seq<byte>, Value>, t: map<seq<byte>, Value>, k: seq<byte>,
          got: Value, w: Value, rest: bool)
    requires k !in base && k !in t && Find(r, k) == Some(got)
    requires r == base[k := got] + t <==> rest
    ensures r == base + t[k := w] <==> rest && got == w
  {
    MapMove(base, t, k, w);
    if r == base + t[k := w] {
      assert r[k] == w;
    }
  }

  lemma WrongAt(r: map<seq<byte>, Value>, m: map<seq<byte>, Value>, k: seq<byte>)
    requires k !in r && k in m
    ensures r != m
  {
  }

  lemma GeneratedNull(from: Json, to: Json)
    requires GenerateMergePatch(from, to).Some?
    ensures GenerateMergePatch(from, to).value.Null? <==> to.Null?
  {
  }

  /** The generated patch turns one tree into the other exactly under that condition. */
  lemma {:induction false} GeneratedExactly(from: Json, to: Json)
    requires Tame(from) && Tame(to)
    ensures GenerateMergePatch(from, to).Some? ==>
              (Rfc(Some(Meaning(from)), GenerateMergePatch(from, to).value) == Meaning(to) <==> TakesTo(from, to))
    decreases Size(from) + Size(to), 1
  {
    hide Rfc, RfcPairs, GenerateMembers, TakesMembers, NoNulls, Sort, MembersMeaning, Keys, InOrder, TameMembers;
    if to.Object? && from.Object? {
      ObjectExactly(from.members, to.members);
    } else if to.Object? {
      FreshExactly(to, Some(Meaning(from)));
    } else {
      LeafPatch(Some(Meaning(from)), to);
    }
  }

  lemma LeafPatch(target: Option<Value>, patch: Json)
    requires !patch.Object?
    ensures Rfc(target, patch) == Meaning(patch)
  {
  }

  lemma {:induction false} ObjectExactly(from: Members, to: Members)
    requires TameMembers(from) && TameMembers(to)
    ensures var patch := GenerateMembers(Sort(from), Sort(to));
      (Rfc(Some(Map(MembersMeaning(from))), Object(patch)) == Map(MembersMeaning(to))) <==>
          TakesMembers(Sort(from), Sort(to))
    decreases SizeOfMembers(from) + SizeOfMembers(to), 2
  {
    hide RfcPairs, GenerateMembers, TakesMembers, Sort, MembersMeaning, Keys, InOrder, TameMembers;
    SortMeaning(from);
    SortMeaning(to);
    GeneratedMembersExactly(Sort(from), Sort(to), map[]);
    var f, t := MembersMeaning(from), MembersMeaning(to);
    assert map[] + f == f && map[] + t == t;
  }

  /** The loop over the rest of both lists, when the names before are settled. */
  lemma {:induction false} GeneratedMembersExactly(from: Members, to: Members, base: map<seq<byte>, Value>)
    requires TameMembers(from) && TameMembers(to)
    requires base.Keys !! Keys(from) && base.Keys !! Keys(to)
    ensures RfcPairs(base + MembersMeaning(from), GenerateMembers(from, to)) == base + MembersMeaning(to)
            <==> TakesMembers(from, to)
    decreases SizeOfMembers(from) + SizeOfMembers(to), 0
  {
    if from.NoMember? && to.NoMember? {
      return;
    }
    match TurnOf(from, to)
    case Removed => RemovedExactly(from, to, base);
    case Added => AddedExactly(from, to, base);
    case Shared => SharedExactly(from, to, base);
  }

  lemma {:induction false} RemovedExactly(from: Members, to: Members, base: map<seq<byte>, Value>)
    requires TameMembers(from) && TameMembers(to)
    requires base.Keys !! Keys(from) && base.Keys !! Keys(to)
    requires (from.Member? || to.Member?) && TurnOf(from, to).Removed?
    ensures RfcPairs(base + MembersMeaning(from), GenerateMembers(from, to)) == base + MembersMeaning(to)
            <==> TakesMembers(from, to)
    decreases SizeOfMembers(from) + SizeOfMembers(to), 0, 0
  {
    hide Rfc, Meaning, Sort, Compare;
    MeaningKeys(from.next);
    RemoveAgain(base, MembersMeaning(from.next), Folded(from.key), Meaning(from.value));
    GeneratedMembersExactly(from.next, to, base);
  }

  lemma RemoveAgain(base: map<seq<byte>, Value>, f: map<seq<byte>, Value>, k: seq<byte>, v: Value)
    requires k !in base && k !in f
    ensures (base + f[k := v]) - {k} == base + f
  {
  }

  /** A name that the source still has and the target has no longer ends up removed, whatever came before. */
  lemma {:induction false} RemovedInTheEnd(m: map<seq<byte>, Value>, from: Members, to: Members, k: seq<byte>)
    requires TameMembers(from) && TameMembers(to) && k in Keys(from) && k !in Keys(to)
    ensures k !in RfcPairs(m, GenerateMembers(from, to))
    decreases SizeOfMembers(from) + SizeOfMembers(to)
  {
    hide Folded, StrCompare, Compare, Rfc, GenerateMergePatch;
    match TurnOf(from, to)
    case Removed =>
      var l := Folded(from.key);
      if l == k {
        GeneratedKeys(from.next, to);
        UntouchedNames(m - {k}, GenerateMembers(from.next, to), k);
      } else {
        RemovedInTheEnd(m - {l}, from.next, to, k);
      }
    case Added =>
      var l := Folded(to.key);
      var m' := if to.value.Null? then m - {l} else m[l := Rfc(Find(m, l), to.value)];
      RemovedInTheEnd(m', from, to.next, k);
    case Shared =>
      CompareEqual(from.key, to.key);
      RemovedShared(m, from, to, k);
  }

  lemma {:induction false} RemovedShared(m: map<seq<byte>, Value>, from: Members, to: Members, k: seq<byte>)
    requires TameMembers(from) && TameMembers(to) && k in Keys(from) && k !in Keys(to)
    requires from.Member? && to.Member? && from.key == to.key && TurnOf(from, to).Shared?
    ensures k !in RfcPairs(m, GenerateMembers(from, to))
    decreases SizeOfMembers(from) + SizeOfMembers(to), 0
  {
    hide Folded, StrCompare, Compare, Rfc, GenerateMergePatch;
    var l, p := Folded(to.key), GenerateMergePatch(from.value, to.value);
    if Compare(from.value, to.value) == 0 || p.None? {
      RemovedInTheEnd(m, from.next, to.next, k);
    } else {
      var m' := if p.value.Null? then m - {l} else m[l := Rfc(Find(m, l), p.value)];
      RemovedInTheEnd(m', from.next, to.next, k);
    }
  }

  lemma {:induction false} AddedExactly(from: Members, to: Members, base: map<seq<byte>, Value>)
    requires TameMembers(from) && TameMembers(to)
    requires base.Keys !! Keys(from) && base.Keys !! Keys(to)
    requires (from.Member? || to.Member?) && TurnOf(from, to).Added?
    ensures RfcPairs(base + MembersMeaning(from), GenerateMembers(from, to)) == base + MembersMeaning(to)
            <==> TakesMembers(from, to)
    decreases SizeOfMembers(from) + SizeOfMembers(to), 0, 0
  {
    hide NoNulls, Rfc, Sort, Compare;
    var k, w, f, t := Folded(to.key), Meaning(to.value), MembersMeaning(from), MembersMeaning(to.next);
    var rest := GenerateMembers(from, to.next);
    MeaningKeys(from);
    MeaningKeys(to.next);
    MeaningNull(to.value);
    GeneratedKeys(from, to.next);
    var got := Rfc(Find(base + f, k), to.value);
    var m := if to.value.Null? then (base + f) - {k} else (base + f)[k := got];
    if k in Keys(from) {
      RemovedInTheEnd(m, from, to.next, k);
      WrongAt(RfcPairs(m, rest), base + t[k := w], k);
    } else if to.value.Null? {
      UntouchedNames(m, rest, k);
      WrongAt(RfcPairs(m, rest), base + t[k := w], k);
    } else {
      FreshExactly(to.value, None);
      MapMove2(base, f, k, got);
      UntouchedNames(m, rest, k);
      GeneratedMembersExactly(from, to.next, base[k := got]);
      RightAt(RfcPairs(m, rest), base, t, k, got, w, TakesMembers(from, to.next));
    }
  }

  lemma MapMove2(base: map<seq<byte>, Value>, f: map<seq<byte>, Value>, k: seq<byte>, v: Value)
    requires k !in base && k !in f
    ensures (base + f)[k := v] == base[k := v] + f
    ensures Find(base + f, k) == None
  {
  }

  /** What the loop emits for a name that both lists start with. */
  lemma SharedPatch(from: Members, to: Members)
    requires TameMembers(from) && TameMembers(to)
    requires from.Member? && to.Member? && TurnOf(from, to).Shared?
    ensures from.key == to.key
    ensures var rest := GenerateMembers(from.next, to.next);
      if Compare(from.value, to.value) == 0 then GenerateMembers(from, to) == rest
      else
        && GenerateMergePatch(from.value, to.value).Some?
        && GenerateMembers(from, to) == Member(to.key, GenerateMergePatch(from.value, to.value).value, rest)
    ensures Compare(from.value, to.value) == 0 <==> Meaning(from.value) == Meaning(to.value)
  {
    hide Meaning, Compare, GenerateMergePatch;
    CompareEqual(from.key, to.key);
    CompareDecides(from.value, to.value);
    GeneratedAbsent(from.value, to.value);
  }

  lemma {:induction false} SharedExactly(from: Members, to: Members, base: map<seq<byte>, Value>)
    requires TameMembers(from) && TameMembers(to)
    requires base.Keys !! Keys(from) && base.Keys !! Keys(to)
    requires from.Member? && to.Member? && TurnOf(from, to).Shared?
    ensures RfcPairs(base + MembersMeaning(from), GenerateMembers(from, to)) == base + MembersMeaning(to)
            <==> TakesMembers(from, to)
    decreases SizeOfMembers(from) + SizeOfMembers(to), 0, 0
  {
    hide GenerateMembers, GenerateMergePatch, Meaning, NoNulls, Rfc, TakesTo, Compare, StrCompare, Folded;
    var k, v, w := Folded(to.key), Meaning(from.value), Meaning(to.value);
    var f, t := MembersMeaning(from.next), MembersMeaning(to.next);
    var rest := GenerateMembers(from.next, to.next);
    MeaningKeys(from.next);
    MeaningKeys(to.next);
    SharedPatch(from, to);
    GeneratedKeys(from.next, to.next);
    if Compare(from.value, to.value) == 0 {
      MapMove(base, f, k, v);
      UntouchedNames(base[k := v] + f, rest, k);
      GeneratedMembersExactly(from.next, to.next, base[k := v]);
      RightAt(RfcPairs(base[k := v] + f, rest), base, t, k, v, w, TakesMembers(from.next, to.next));
    } else {
      GeneratedNull(from.value, to.value);
      GeneratedExactly(from.value, to.value);
      var p := GenerateMergePatch(from.value, to.value).value;
      var m := base + f[k := v];
      if p.Null? {
        UntouchedNames(m - {k}, rest, k);
        WrongAt(RfcPairs(m - {k}, rest), base + t[k := w], k);
      } else {
        var got := Rfc(Some(v), p);
        MapOver(base, f, k, v, got);
        UntouchedNames(m[k := got], rest, k);
        GeneratedMembersExactly(from.next, to.next, base[k := got]);
        RightAt(RfcPairs(m[k := got], rest), base, t, k, got, w, TakesMembers(from.next, to.next));
      }
    }
  }

  lemma MapOver(base: map<seq<byte>, Value>, f: map<seq<byte>, Value>, k: seq<byte>, v: Value, got: Value)
    requires k !in base && k !in f
    ensures Find(base + f[k := v], k) == Some(v)
    ensures (base + f[k := v])[k := got] == base[k := got] + f
  {
  }

  /** Merging the generated patch into a copy of the source gives the target exactly when TakesTo says so. */
  lemma GenerateThenMerge(from: Json, to: Json)
    requires Tame(from) && Tame(to)
    ensures match GenerateMergePatch(from, to)
            case None => Meaning(from) == Meaning(to)
            case Some(p) => Meaning(MergePatch(Some(from), p)) == Meaning(to) <==> TakesTo(from, to)
  {
    hide TakesTo, Rfc, Tame, Meaning, GenerateMergePatch, Mergeable, MergePatch;
    GeneratedAbsent(from, to);
    GeneratedExactly(from, to);
    GeneratedMergeable(from, to);
    if GenerateMergePatch(from, to).Some? {
      MergeRefines(Some(from), GenerateMergePatch(from, to).value);
    }
  }

  // ---------------------------------------------------------------------
  // Pairs for which both orders of names agree
  // ---------------------------------------------------------------------

  predicate SameSign(x: int, y: int)
  {
    (x < 0 <==> y < 0) && (x > 0 <==> y > 0)
  }

  /** The walk over two sorted lists goes as it would if it ignored case, and so do those over objects below. */
  predicate AlignedMembers(from: Members, to: Members)
    decreases SizeOfMembers(from) + SizeOfMembers(to), 0
  {
    from.Member? && to.Member? ==>
      var c := CaseCompare(from.key, to.key);
      && SameSign(StrCompare(from.key, to.key), c)
      && if c < 0 then AlignedMembers(from.next, to)
         else if c > 0 then AlignedMembers(from, to.next)
         else
           && AlignedMembers(from.next, to.next)
           && (Compare(from.value, to.value) == 0 || Aligned(from.value, to.value))
  }

  predicate Aligned(from: Json, to: Json)
    decreases Size(from) + Size(to), 1
  {
    from.Object? && to.Object? ==> AlignedMembers(Sort(from.members), Sort(to.members))
  }

  /** Of two sorted lists, the smaller head is in neither tail, nor in the other list. */
  lemma HeadIsNew(a: Members, b: Members)
    requires TameMembers(a) && TameMembers(b) && InOrder(a) && InOrder(b) && a.Member?
    requires b.Member? ==> CaseCompare(a.key, b.key) < 0
    ensures Folded(a.key) !in Keys(b)
  {
    var k := Folded(a.key);
    if b.Member? && k in Keys(b) {
      var l := Folded(b.key);
      CompareAgrees(a.key, b.key);
      CompareEqual(k, l);
      HeadLeast(b, k);
      CompareSwaps(k, l);
    }
  }

  lemma TurnFacts(from: Members, to: Members)
    requires TameMembers(from) && TameMembers(to) && InOrder(from) && InOrder(to) && AlignedMembers(from, to)
    requires from.Member? || to.Member?
    ensures match TurnOf(from, to)
            case Removed => from.Member? && Folded(from.key) !in Keys(to) && AlignedMembers(from.next, to)
            case Added => to.Member? && Folded(to.key) !in Keys(from) && AlignedMembers(from, to.next)
            case Shared =>
              && from.Member? && to.Member? && Folded(from.key) == Folded(to.key) && AlignedMembers(from.next, to.next)
              && (Compare(from.value, to.value) == 0 || Aligned(from.value, to.value))
  {
    hide InOrder, Folded, CaseCompare, StrCompare, Aligned, Compare, Keys;
    if from.Member? && to.Member? {
      CaseEqualIsEqual(from.key, to.key);
      CaseSwaps(from.key, to.key);
    }
    match TurnOf(from, to)
    case Removed => HeadIsNew(from, to);
    case Added => HeadIsNew(to, from);
    case Shared =>
  }

  /** A patch can express a member: it is unchanged, or it is not null and a patch can express its own change. */
  predicate PatchableAt(f: map<seq<byte>, Value>, goal: Value, k: seq<byte>)
    requires goal.Map? && k in goal.members
    decreases goal, 0
  {
    var v := goal.members[k];
    (k in f && f[k] == v) || (v != Scalar(Null) && (if k in f then Patchable(f[k], v) else NoNulls(v)))
  }

  predicate AllPatchable(f: map<seq<byte>, Value>, goal: Value)
    requires goal.Map?
    decreases goal, 1
  {
    forall k :: k in goal.members ==> PatchableAt(f, goal, k)
  }

  /** The condition under which a merge patch can turn one value into the other. */
  predicate Patchable(from: Value, goal: Value)
    decreases goal, 2
  {
    if !goal.Map? then true
    else if from.Map? then AllPatchable(from.members, goal)
    else NoNulls(goal)
  }

  lemma SamePatchableAt(f: map<seq<byte>, Value>, g: map<seq<byte>, Value>, goal: Value, goal': Value, k: seq<byte>)
    requires goal.Map? && goal'.Map? && k in goal.members && k in goal'.members
    requires Find(f, k) == Find(g, k) && goal.members[k] == goal'.members[k]
    ensures PatchableAt(f, goal, k) <==> PatchableAt(g, goal', k)
  {
  }

  /** A name that only the source has does not matter. */
  lemma PatchableDrop(f: map<seq<byte>, Value>, t: map<seq<byte>, Value>, k: seq<byte>, v: Value)
    requires k !in t
    ensures AllPatchable(f[k := v], Map(t)) <==> AllPatchable(f, Map(t))
  {
    forall i | i in t.Keys ensures PatchableAt(f[k := v], Map(t), i) <==> PatchableAt(f, Map(t), i) {
      SamePatchableAt(f[k := v], f, Map(t), Map(t), i);
    }
  }

  /** One more name in the goal is one more condition. */
  lemma PatchablePut(f: map<seq<byte>, Value>, f': map<seq<byte>, Value>, t: map<seq<byte>, Value>, k: seq<byte>,
          w: Value)
    requires k !in t && forall i :: i in t ==> Find(f', i) == Find(f, i)
    ensures AllPatchable(f', Map(t[k := w])) <==> AllPatchable(f, Map(t)) && PatchableAt(f', Map(t[k := w]), k)
  {
    var goal, goal' := Map(t), Map(t[k := w]);
    forall i | i in t.Keys ensures PatchableAt(f', goal', i) <==> PatchableAt(f, goal, i) {
      SamePatchableAt(f', f, goal', goal, i);
    }
    if AllPatchable(f', goal') {
      forall i | i in t.Keys ensures PatchableAt(f, goal, i) {
        assert i in goal'.members;
      }
    }
    if AllPatchable(f, goal) && PatchableAt(f', goal', k) {
      forall i | i in goal'.members.Keys ensures PatchableAt(f', goal', i) {
        assert i != k ==> i in goal.members;
      }
    }
  }

  /** Where the walk goes as the sorting, the patch works exactly when any merge patch could. */
  lemma {:induction false} AlignedTakes(from: Json, to: Json)
    requires Tame(from) && Tame(to) && Aligned(from, to)
    ensures TakesTo(from, to) <==> Patchable(Meaning(from), Meaning(to))
    decreases Size(from) + Size(to), 1
  {
    hide AllPatchable, TakesMembers, NoNulls, Sort, MembersMeaning, Keys, InOrder, TameMembers;
    if from.Object? && to.Object? {
      SortInOrder(from.members);
      SortInOrder(to.members);
      SortMeaning(from.members);
      SortMeaning(to.members);
      AlignedMembersTake(Sort(from.members), Sort(to.members));
    }
  }

  lemma {:induction false} AlignedMembersTake(from: Members, to: Members)
    requires TameMembers(from) && TameMembers(to) && InOrder(from) && InOrder(to) && AlignedMembers(from, to)
    ensures TakesMembers(from, to) <==> AllPatchable(MembersMeaning(from), Map(MembersMeaning(to)))
    decreases SizeOfMembers(from) + SizeOfMembers(to), 0
  {
    hide Folded, StrCompare, CaseCompare, Compare, AlignedMembers, Aligned, AllPatchable, PatchableAt, Meaning, TakesTo,
         NoNulls;
    if from.Member? || to.Member? {
      TurnFacts(from, to);
      MeaningKeys(from);
      MeaningKeys(to);
      match TurnOf(from, to)
      case Removed =>
        PatchableDrop(MembersMeaning(from.next), MembersMeaning(to), Folded(from.key), Meaning(from.value));
        AlignedMembersTake(from.next, to);
      case Added =>
        AddedTake(from, to);
        AlignedMembersTake(from, to.next);
      case Shared =>
        SharedTake(from, to);
        AlignedMembersTake(from.next, to.next);
    } else {
      NothingPatchable();
    }
  }

  lemma NothingPatchable()
    ensures AllPatchable(map[], Map(map[]))
  {
  }

  /** A name that only the target has. */
  lemma AddedTake(from: Members, to: Members)
    requires TameMembers(from) && TameMembers(to) && to.Member? && Folded(to.key) !in Keys(from)
    ensures AllPatchable(MembersMeaning(from), Map(MembersMeaning(to))) <==>
              AllPatchable(MembersMeaning(from), Map(MembersMeaning(to.next))) && !to.value.Null? &&
              NoNulls(Meaning(to.value))
  {
    hide Folded, AllPatchable, NoNulls;
    var k, w, f, t := Folded(to.key), Meaning(to.value), MembersMeaning(from), MembersMeaning(to.next);
    MeaningKeys(from);
    MeaningKeys(to.next);
    MeaningNull(to.value);
    assert Map(t[k := w]).members[k] == w;
    PatchablePut(f, f, t, k, w);
  }

  /** A name that both have. */
  lemma {:induction false} SharedTake(from: Members, to: Members)
    requires TameMembers(from) && TameMembers(to) && from.Member? && to.Member? && Folded(from.key) == Folded(to.key)
    requires Compare(from.value, to.value) == 0 || Aligned(from.value, to.value)
    ensures AllPatchable(MembersMeaning(from), Map(MembersMeaning(to))) <==>
              && AllPatchable(MembersMeaning(from.next), Map(MembersMeaning(to.next)))
              && (Compare(from.value, to.value) == 0 || (!to.value.Null? && TakesTo(from.value, to.value)))
    decreases SizeOfMembers(from) + SizeOfMembers(to), 0, 0
  {
    hide Folded, AllPatchable, Patchable, NoNulls, Compare, Aligned, TakesTo, Meaning;
    var k, v, w := Folded(to.key), Meaning(from.value), Meaning(to.value);
    var f, t := MembersMeaning(from.next), MembersMeaning(to.next);
    MeaningKeys(from.next);
    MeaningKeys(to.next);
    MeaningNull(to.value);
    CompareDecides(from.value, to.value);
    if Aligned(from.value, to.value) {
      AlignedTakes(from.value, to.value);
    }
    assert Map(t[k := w]).members[k] == w;
    PatchablePut(f, f[k := v], t, k, w);
  }

  /** In particular for every goal without nulls. */
  lemma NoNullsPatchable(from: Value, goal: Value)
    requires NoNulls(goal)
    ensures Patchable(from, goal)
    decreases goal
  {
    if goal.Map? && from.Map? {
      forall k | k in goal.members.Keys ensures PatchableAt(from.members, goal, k) {
        if k in from.members {
          NoNullsPatchable(from.members[k], goal.members[k]);
        }
      }
    }
  }

  /** A null that the source does not have is lost. */
  lemma NullIsLost(name: seq<byte>)
    requires NUL !in name
    ensures var from, to := Object(NoMember), Object(Member(name, Null, NoMember));
      && Tame(from) && Tame(to) && GenerateMergePatch(from, to).Some?
      && Meaning(MergePatch(Some(from), GenerateMergePatch(from, to).value)) != Meaning(to)
  {
    hide Folded;
    var from, to := Object(NoMember), Object(Member(name, Null, NoMember));
    assert TameMembers(NoMember) && TameMembers(to.members);
    assert Sort(NoMember) == NoMember;
    GenerateThenMerge(from, to);
    assert !TakesMembers(NoMember, to.members);
  }

  /**
   A name that changes in case only: the patch removes the old name and sets the new one, and it removes
   last what strcmp puts last. So the change works exactly when the old name comes first.
   */
  lemma CaseChange(was: seq<byte>, name: seq<byte>, v: Json, w: Json)
    requires NUL !in was && NUL !in name && was != name && Folded(was) == Folded(name)
    requires Tame(v) && Tame(w) && !w.Null? && NoNulls(Meaning(w))
    ensures var from, to := Object(Member(was, v, NoMember)), Object(Member(name, w, NoMember));
      && Tame(from) && Tame(to) && GenerateMergePatch(from, to).Some?
      && (Meaning(MergePatch(Some(from), GenerateMergePatch(from, to).value)) == Meaning(to) <==> Before(was, name))
  {
    hide Folded, StrCompare, NoNulls, Meaning, MergePatch;
    var f, t := Member(was, v, NoMember), Member(name, w, NoMember);
    assert TameMembers(NoMember);
    assert TameMembers(f) && TameMembers(t);
    assert Tame(Object(f)) && Tame(Object(t));
    assert Sort(f) == f && Sort(t) == t;
    CompareEqual(was, name);
    GenerateThenMerge(Object(f), Object(t));
    assert TakesMembers(NoMember, t) && TakesMembers(NoMember, NoMember);
  }

  // --- names without upper-case letters

  predicate LowerCase(s: seq<byte>)
  {
    forall i :: 0 <= i < |s| ==> Lower(s[i]) == s[i]
  }

  predicate LowerNames(j: Json)
  {
    j.Object? ==> LowerMembers(j.members)
  }

  predicate LowerMembers(ms: Members)
  {
    ms.Member? ==> LowerCase(ms.key) && LowerNames(ms.value) && LowerMembers(ms.next)
  }

  lemma {:induction false} LowerTake(ms: Members, n: nat)
    requires LowerMembers(ms)
    ensures LowerMembers(Take(ms, n)) && LowerMembers(Drop(ms, n))
  {
    if ms.Member? && n > 0 {
      LowerTake(ms.next, n - 1);
    }
  }

  lemma {:induction false} LowerMerge(a: Members, b: Members)
    requires LowerMembers(a) && LowerMembers(b)
    ensures LowerMembers(Merge(a, b))
  {
    hide CaseBefore, Folded;
    if a.Member? && b.Member? {
      if CaseBefore(a.key, b.key) {
        LowerMerge(a.next, b);
      } else {
        LowerMerge(a, b.next);
      }
    }
  }

  lemma {:induction false} LowerSort(ms: Members)
    requires LowerMembers(ms)
    ensures LowerMembers(Sort(ms))
    decreases Length(ms)
  {
    hide LowerMembers, TameMembers, Keys, InOrder, Merge, Take, Drop;
    if Length(ms) > 1 && !InOrder(ms) {
      var h := (Length(ms) + 1) / 2;
      SplitKeys(ms, h);
      LowerTake(ms, h);
      LowerSort(Take(ms, h));
      LowerSort(Drop(ms, h));
      LowerMerge(Sort(Take(ms, h)), Sort(Drop(ms, h)));
    }
  }

  lemma LowerCompares(a: seq<byte>, b: seq<byte>)
    requires NUL !in a && NUL !in b && LowerCase(a) && LowerCase(b)
    ensures CaseCompare(a, b) == StrCompare(a, b)
  {
    CompareAgrees(a, b);
    assert Folded(a) == a && Folded(b) == b;
  }

  /** Trees whose objects have no upper-case letter in a name are aligned. */
  lemma {:induction false} LowerAligned(from: Json, to: Json)
    requires Tame(from) && Tame(to) && LowerNames(from) && LowerNames(to)
    ensures Aligned(from, to)
    decreases Size(from) + Size(to), 1
  {
    if from.Object? && to.Object? {
      LowerSort(from.members);
      LowerSort(to.members);
      LowerMembersAligned(Sort(from.members), Sort(to.members));
    }
  }

  lemma {:induction false} LowerMembersAligned(from: Members, to: Members)
    requires TameMembers(from) && TameMembers(to) && LowerMembers(from) && LowerMembers(to)
    ensures AlignedMembers(from, to)
    decreases SizeOfMembers(from) + SizeOfMembers(to), 0
  {
    hide LowerCase, Aligned, CaseCompare, StrCompare, Compare, Folded, Keys;
    if from.Member? && to.Member? {
      LowerCompares(from.key, to.key);
      LowerMembersAligned(from.next, to);
      LowerMembersAligned(from, to.next);
      LowerMembersAligned(from.next, to.next);
      LowerAligned(from.value, to.value);
    }
  }

  const UPPER_B: Members := Member([66], Number(2), NoMember)
  const A_UPPER_B: Members := Member([97], Number(1), UPPER_B)
  const BOTH_REMOVED: Members := Member([97], Null, Member([66], Null, NoMember))

  lemma UpperCaseTame()
    ensures TameMembers(A_UPPER_B) && TameMembers(UPPER_B)
    ensures Sort(A_UPPER_B) == A_UPPER_B && Sort(UPPER_B) == UPPER_B
  {
    assert Folded([97]) == [97] && Folded([66]) == [98];
    hide Folded;
    assert CaseBefore([97], [66]);
    hide CaseBefore, CaseCompare, Merge, Take, Drop;
  }

  lemma UpperCaseNoNulls()
    ensures NoNulls(Meaning(Object(UPPER_B)))
  {
    hide Folded;
    assert MembersMeaning(UPPER_B) == map[Folded([66]) := Scalar(Number(2))];
  }

  lemma UpperCasePatch()
    requires TameMembers(A_UPPER_B) && TameMembers(UPPER_B)
    ensures GenerateMembers(A_UPPER_B, UPPER_B) == Member([66], Number(2), BOTH_REMOVED)
  {
    assert StrCompare([97], [66]) == 31;
    hide StrCompare;
    assert GenerateMembers(UPPER_B, NoMember) == BOTH_REMOVED.next;
    assert GenerateMembers(A_UPPER_B, NoMember) == BOTH_REMOVED;
  }

  lemma UpperCaseMerged()
    ensures MergeMembers(A_UPPER_B, Member([66], Number(2), BOTH_REMOVED)) == NoMember
  {
    assert Detach(A_UPPER_B, [66]) == (Some(Number(2)), Member([97], Number(1), NoMember));
    assert Detach(A_UPPER_B, [97]).1 == UPPER_B && Detach(UPPER_B, [66]).1 == NoMember;
    hide Detach, CaseCompare;
    assert MergeMembers(UPPER_B, BOTH_REMOVED.next) == NoMember;
    assert MergeMembers(A_UPPER_B, BOTH_REMOVED) == NoMember;
  }

  /** With an upper-case letter the patch can be wrong: from {"a": 1, "B": 2} to {"B": 2} it removes both. */
  lemma UpperCaseIsLost()
    ensures var from, to := Object(A_UPPER_B), Object(UPPER_B);
      && Tame(from) && Tame(to) && NoNulls(Meaning(to)) && GenerateMergePatch(from, to).Some?
      && MergePatch(Some(from), GenerateMergePatch(from, to).value) == Object(NoMember)
  {
    UpperCaseTame();
    UpperCaseNoNulls();
    UpperCasePatch();
    UpperCaseMerged();
    hide Meaning, Sort, GenerateMembers, MergeMembers, TameMembers;
  }

  // ---------------------------------------------------------------------
  // The loops
  // ---------------------------------------------------------------------

  /** One list linked behind another. */
  function Concat(a: Members, b: Members): Members
  {
    if a.NoMember? then b else Member(a.key, a.value, Concat(a.next, b))
  }

  lemma {:induction false} ConcatAppend(a: Members, k: seq<byte>, v: Json, b: Members)
    ensures Concat(Append(a, k, v), b) == Concat(a, Member(k, v, b))
  {
    if a.Member? {
      ConcatAppend(a.next, k, v, b);
    }
  }

  lemma {:induction false} ConcatNothing(a: Members)
    ensures Concat(a, NoMember) == a
  {
    if a.Member? {
      ConcatNothing(a.next);
    }
  }

  /** The members sorted. */
  method SortList(list: Members) returns (sorted: Members)
    ensures sorted == Sort(list) && Items(sorted) == Items(list)
    ensures CNames(list) ==> Ascending(sorted)
    ensures TameMembers(list) ==> InOrder(sorted) && MembersMeaning(sorted) == MembersMeaning(list)
    decreases Length(list)
  {
    hide MembersMeaning, InOrder, Ascending, Items, CNames, Keys, TameMembers, Take, Drop, Merge;
    SortItems(list);
    if CNames(list) {
      SortAscends(list);
    }
    if TameMembers(list) {
      SortMeaning(list);
      SortInOrder(list);
    }
    if list.NoMember? || list.next.NoMember? {
      assert Length(list) <= 1;
      return list;
    }
    var already := TestSorted(list);
    if already {
      return list;
    }
    var middle := FindMiddle(list);
    SplitKeys(list, middle);
    var first := SortList(Take(list, middle));
    var second := SortList(Drop(list, middle));
    sorted := MergeSorted(first, second);
  }

  method TestSorted(list: Members) returns (already: bool)
    ensures already == InOrder(list)
  {
    var ptr := list;
    while ptr.Member? && ptr.next.Member? && CaseCompare(ptr.key, ptr.next.key) < 0
      invariant InOrder(ptr) == InOrder(list)
      decreases ptr
    {
      ptr := ptr.next;
    }
    already := ptr.NoMember? || ptr.next.NoMember?;
  }

  /** Two pointers walk the list, one at double speed: the other stops in the middle. */
  method FindMiddle(list: Members) returns (middle: nat)
    ensures middle == (Length(list) + 1) / 2 && middle <= Length(list)
  {
    var ptr := list;
    middle := 0;
    while ptr.Member?
      invariant Length(ptr) == if 2 * middle <= Length(list) then Length(list) - 2 * middle else 0
      invariant 2 * middle <= Length(list) + 1
      decreases ptr
    {
      middle := middle + 1;
      ptr := ptr.next;
      if ptr.Member? {
        ptr := ptr.next;
      }
    }
  }

  /** The merging loop links the smaller head behind what is merged already. */
  method MergeSorted(a: Members, b: Members) returns (list: Members)
    ensures list == Merge(a, b)
  {
    var first, second := a, b;
    list := NoMember;
    while first.Member? && second.Member?
      invariant Concat(list, Merge(first, second)) == Merge(a, b)
      decreases Length(first) + Length(second)
    {
      if CaseCompare(first.key, second.key) < 0 {
        ConcatAppend(list, first.key, first.value, Merge(first.next, second));
        list := Append(list, first.key, first.value);
        first := first.next;
      } else {
        ConcatAppend(list, second.key, second.value, Merge(first, second.next));
        list := Append(list, second.key, second.value);
        second := second.next;
      }
    }
    list := Concat(list, if first.Member? then first else second);
  }

  method CompareTrees(a: Json, b: Json) returns (code: int)
    ensures code == Compare(a, b)
    ensures Tame(a) && Tame(b) ==> (code == 0 <==> Meaning(a) == Meaning(b))
    decreases Size(a)
  {
    if Tame(a) && Tame(b) {
      CompareDecides(a, b);
    }
    match (a, b)
    case (Number(m), Number(n)) =>
      code := if m != n then -2 else 0;
    case (String(s), String(t)) =>
      code := if s != t then -3 else 0;
    case (Array(es), Array(fs)) =>
      var x, y := es, fs;
      while x.Element? && y.Element?
        invariant SizeOfElements(x) <= SizeOfElements(es)
        invariant CompareElements(x, y) == CompareElements(es, fs)
        decreases x
      {
        code := CompareTrees(x.value, y.value);
        if code != 0 {
          return;
        }
        x, y := x.next, y.next;
      }
      code := if x.Element? || y.Element? then -4 else 0;
    case (Object(ms), Object(ns)) =>
      var x := SortList(ms);
      var y := SortList(ns);
      while x.Member? && y.Member?
        invariant SizeOfMembers(x) <= SizeOfMembers(ms)
        invariant CompareMembers(x, y) == CompareMembers(Sort(ms), Sort(ns))
        decreases x
      {
        if CaseCompare(x.key, y.key) != 0 {
          return -6;
        }
        code := CompareTrees(x.value, y.value);
        if code != 0 {
          return;
        }
        x, y := x.next, y.next;
      }
      code := if x.Member? || y.Member? then -5 else 0;
    case (Null, Null) => code := 0;
    case (True, True) => code := 0;
    case (False, False) => code := 0;
    case _ => code := -1;
  }

  /** The target after the patch has been merged into it. */
  method ApplyMergePatch(target: Option<Json>, patch: Json) returns (result: Json)
    ensures result == MergePatch(target, patch)
    ensures (target.Some? ==> Tame(target.value)) && Mergeable(patch) ==>
              && Tame(result)
              && Meaning(result) == Rfc(if target.Some? then Some(Meaning(target.value)) else None, patch)
    decreases patch
  {
    if (target.Some? ==> Tame(target.value)) && Mergeable(patch) {
      MergeRefines(target, patch);
    }
    if !patch.Object? {
      return patch;
    }
    var ms := MembersOf(target);
    var p := patch.members;
    while p.Member?
      invariant p.Member? ==> p < patch
      invariant MergeMembers(ms, p) == MergeMembers(MembersOf(target), patch.members)
      decreases p
    {
      var (replaceme, rest) := Detach(ms, p.key);
      if p.value.Null? {
        ms := rest;
      } else {
        var merged := ApplyMergePatch(replaceme, p.value);
        ms := Append(rest, p.key, merged);
      }
      p := p.next;
    }
    result := Object(ms);
  }

  /** The patch that takes one tree to the other. */
  method MakeMergePatch(from: Json, to: Json) returns (patch: Option<Json>)
    ensures patch == GenerateMergePatch(from, to)
    ensures Tame(from) && Tame(to) ==>
              (patch.None? <==> from.Object? && to.Object? && Meaning(from) == Meaning(to) &&
                                Names(from.members) == Names(to.members))
    ensures Tame(from) && Tame(to) && patch.Some? ==>
              (Meaning(MergePatch(Some(from), patch.value)) == Meaning(to) <==> TakesTo(from, to))
    decreases Size(from) + Size(to)
  {
    hide TakesTo, Tame, Meaning, MergePatch, Names, MembersMeaning, InOrder, Ascending, Items, CNames, Sort, StrCompare;
    if Tame(from) && Tame(to) {
      GeneratedAbsent(from, to);
      GenerateThenMerge(from, to);
    }
    if !to.Object? || !from.Object? {
      return Some(to);
    }
    var f := SortList(from.members);
    var t := SortList(to.members);
    var made := NoMember;
    while f.Member? || t.Member?
      invariant SizeOfMembers(f) <= SizeOfMembers(from.members) && SizeOfMembers(t) <= SizeOfMembers(to.members)
      invariant Concat(made, GenerateMembers(f, t)) == GenerateMembers(Sort(from.members), Sort(to.members))
      decreases SizeOfMembers(f) + SizeOfMembers(t)
    {
      made, f, t := MakeOne(made, f, t, Size(from) + Size(to));
    }
    ConcatNothing(made);
    patch := if made.NoMember? then None else Some(Object(made));
  }

  /** One turn of the loop. */
  method MakeOne(made: Members, from: Members, to: Members, ghost bound: nat)
      returns (made': Members, f: Members, t: Members)
    requires from.Member? || to.Member?
    requires SizeOfMembers(from) + SizeOfMembers(to) < bound
    ensures SizeOfMembers(f) <= SizeOfMembers(from) && SizeOfMembers(t) <= SizeOfMembers(to)
    ensures SizeOfMembers(f) + SizeOfMembers(t) < SizeOfMembers(from) + SizeOfMembers(to)
    ensures Concat(made', GenerateMembers(f, t)) == Concat(made, GenerateMembers(from, to))
    decreases bound, 0
  {
    made', f, t := made, from, to;
    var compare := if from.Member? then (if to.Member? then StrCompare(from.key, to.key) else -1) else 1;
    if compare < 0 {
      ConcatAppend(made, from.key, Null, GenerateMembers(from.next, to));
      made' := Append(made, from.key, Null);
      f := from.next;
    } else if compare > 0 {
      ConcatAppend(made, to.key, to.value, GenerateMembers(from, to.next));
      made' := Append(made, to.key, to.value);
      t := to.next;
    } else {
      var code := CompareTrees(from.value, to.value);
      if code != 0 {
        var p := MakeMergePatch(from.value, to.value);
        if p.Some? {
          ConcatAppend(made, to.key, p.value, GenerateMembers(from.next, to.next));
          made' := Append(made, to.key, p.value);
        }
      }
      f, t := from.next, to.next;
    }
  }
}
