/**
 JSON Pointers (RFC 6901): building the pointer to a node, and following it back.

 A node of a tree is given by its path, the child positions that lead to it; following a pointer
 returns a path as well, so that two equal subtrees stay distinguishable.
 */
module JsonPointer {

  import opened Base
  import opened JsonText
  import opened JsonPrint
  import opened JsonBuffered

  type Path = seq<nat>

  const TILDE: byte := 126
  const ONE: byte := 49

  /** tolower */
  function Lower(b: byte): byte
  {
    if 65 <= b <= 90 then b + 32 else b
  }

  predicate CaseEqual(a: seq<byte>, b: seq<byte>)
  {
    |a| == |b| && forall i :: 0 <= i < |a| ==> Lower(a[i]) == Lower(b[i])
  }

  // ---------------------------------------------------------------------
  // Tokens
  // ---------------------------------------------------------------------

  function EncodeByte(b: byte): (s: seq<byte>)
    ensures |s| > 0
  {
    if b == SLASH then [TILDE, ONE] else if b == TILDE then [TILDE, ZERO] else [b]
  }

  /** A member name as a reference token: ~ and / are written ~0 and ~1. */
  function Encode(s: seq<byte>): seq<byte>
  {
    if |s| == 0 then [] else EncodeByte(s[0]) + Encode(s[1..])
  }

  /** The name that a reference token stands for; None if it has a ~ without 0 or 1. */
  function DecodeToken(e: seq<byte>): Option<seq<byte>>
  {
    if |e| == 0 then Some([])
    else if e[0] != TILDE then Prefix([e[0]], DecodeToken(e[1..]))
    else if |e| > 1 && e[1] == ZERO then Prefix([TILDE], DecodeToken(e[2..]))
    else if |e| > 1 && e[1] == ONE then Prefix([SLASH], DecodeToken(e[2..]))
    else None
  }

  /** The bytes up to the next slash. */
  function Token(e: seq<byte>): seq<byte>
  {
    if |e| == 0 || e[0] == SLASH then [] else [e[0]] + Token(e[1..])
  }

  function AfterToken(e: seq<byte>): (r: seq<byte>)
    ensures |r| <= |e|
  {
    if |e| == 0 || e[0] == SLASH then e else AfterToken(e[1..])
  }

  /** The comparison of a member name with the token at the start of a pointer. */
  predicate Matches(a: seq<byte>, e: seq<byte>)
  {
    if |a| > 0 && |e| > 0 && e[0] != SLASH then
      if e[0] == TILDE then
        ((|e| > 1 && e[1] == ZERO && a[0] == TILDE) || (|e| > 1 && e[1] == ONE && a[0] == SLASH))
            && Matches(a[1..], e[2..])
      else
        Lower(a[0]) == Lower(e[0]) && Matches(a[1..], e[1..])
    else
      (|e| > 0 && e[0] != SLASH) == (|a| > 0)
  }

  lemma CaseEqualStep(a: seq<byte>, s: seq<byte>, b: byte)
    requires |a| > 0
    ensures CaseEqual(a, [b] + s) <==> Lower(a[0]) == Lower(b) && CaseEqual(a[1..], s)
  {
    var t := [b] + s;
    if Lower(a[0]) == Lower(b) && CaseEqual(a[1..], s) {
      forall i | 0 <= i < |a| ensures Lower(a[i]) == Lower(t[i]) {
        assert i > 0 ==> a[i] == a[1..][i - 1] && t[i] == s[i - 1];
      }
    }
    if CaseEqual(a, t) {
      forall i | 0 <= i < |a[1..]| ensures Lower(a[1..][i]) == Lower(s[i]) {
        assert Lower(a[i + 1]) == Lower(t[i + 1]);
      }
    }
  }

  /** Only ~ and / themselves are equal to ~ and / when case is ignored. */
  lemma LowerExact(b: byte, c: byte)
    requires c == TILDE || c == SLASH
    ensures Lower(b) == Lower(c) <==> b == c
  {
  }

  /** A name matches a token exactly when it is, ignoring case, the name that the token stands for. */
  lemma {:induction false} MatchesExactly(a: seq<byte>, e: seq<byte>)
    ensures Matches(a, e) <==> DecodeToken(Token(e)).Some? && CaseEqual(a, DecodeToken(Token(e)).value)
    decreases |e|
  {
    if |e| > 0 && e[0] != SLASH {
      assert Token(e) == [e[0]] + Token(e[1..]);
      if e[0] != TILDE {
        assert Token(e)[1..] == Token(e[1..]);
        if |a| > 0 {
          MatchesExactly(a[1..], e[1..]);
          var r := DecodeToken(Token(e[1..]));
          if r.Some? {
            CaseEqualStep(a, r.value, e[0]);
          }
        }
      } else if |e| > 1 && (e[1] == ZERO || e[1] == ONE) {
        var c := if e[1] == ZERO then TILDE else SLASH;
        assert Token(e[1..]) == [e[1]] + Token(e[1..][1..]);
        assert e[1..][1..] == e[2..];
        assert Token(e)[2..] == Token(e[2..]);
        if |a| > 0 {
          MatchesExactly(a[1..], e[2..]);
          LowerExact(a[0], c);
          var r := DecodeToken(Token(e[2..]));
          if r.Some? {
            CaseEqualStep(a, r.value, c);
          }
        }
      } else {
        TokenTail(e);
      }
    }
  }

  lemma TokenTail(e: seq<byte>)
    requires |e| > 0 && e[0] == TILDE && !(|e| > 1 && (e[1] == ZERO || e[1] == ONE))
    ensures DecodeToken(Token(e)) == None
  {
    if |e| > 1 && e[1] != SLASH {
      assert Token(e[1..])[0] == e[1];
    }
  }

  /** Decoding inverts encoding, and an encoded name has no slash. */
  lemma {:induction false} DecodeEncode(s: seq<byte>)
    ensures DecodeToken(Encode(s)) == Some(s) && SLASH !in Encode(s)
  {
    if |s| > 0 {
      DecodeEncode(s[1..]);
      DecodeOne(s[0], Encode(s[1..]));
      assert [s[0]] + s[1..] == s;
    }
  }

  lemma DecodeOne(b: byte, rest: seq<byte>)
    requires DecodeToken(rest).Some? && SLASH !in rest
    ensures DecodeToken(EncodeByte(b) + rest) == Some([b] + DecodeToken(rest).value) && SLASH !in EncodeByte(b) + rest
  {
    var e := EncodeByte(b) + rest;
    assert e[1..] == EncodeByte(b)[1..] + rest;
    assert |EncodeByte(b)| == 2 ==> e[2..] == rest;
  }

  lemma {:induction false} TokenOfEncoded(e: seq<byte>, rest: seq<byte>)
    requires SLASH !in e && (|rest| == 0 || rest[0] == SLASH)
    ensures Token(e + rest) == e && AfterToken(e + rest) == rest
  {
    if |e| == 0 {
      assert e + rest == rest;
    } else {
      assert (e + rest)[1..] == e[1..] + rest;
      TokenOfEncoded(e[1..], rest);
    }
  }

  /** So a name is found by its own token, and by no other name's unless they are equal ignoring case. */
  lemma MatchesEncoded(a: seq<byte>, s: seq<byte>, rest: seq<byte>)
    requires |rest| == 0 || rest[0] == SLASH
    ensures Matches(a, Encode(s) + rest) <==> CaseEqual(a, s)
    ensures AfterToken(Encode(s) + rest) == rest
  {
    DecodeEncode(s);
    TokenOfEncoded(Encode(s), rest);
    MatchesExactly(a, Encode(s) + rest);
  }

  // ---------------------------------------------------------------------
  // Nodes
  // ---------------------------------------------------------------------

  function NthElement(es: Elements, i: nat): Option<Json>
  {
    if es.NoElement? then None else if i == 0 then Some(es.value) else NthElement(es.next, i - 1)
  }

  function NthMember(ms: Members, i: nat): Option<(seq<byte>, Json)>
  {
    if ms.NoMember? then None else if i == 0 then Some((ms.key, ms.value)) else NthMember(ms.next, i - 1)
  }

  function Child(j: Json, i: nat): Option<Json>
  {
    match j
    case Array(es) => NthElement(es, i)
    case Object(ms) => (match NthMember(ms, i) case None => None case Some((_, v)) => Some(v))
    case _ => None
  }

  /** The path leads to a node of the tree. */
  predicate IsNode(j: Json, t: Path)
    decreases |t|
  {
    |t| == 0 || (Child(j, t[0]).Some? && IsNode(Child(j, t[0]).value, t[1..]))
  }

  // ---------------------------------------------------------------------
  // cJSONUtils_FindPointerFromObjectTo
  // ---------------------------------------------------------------------

  /** The search target seen from child i: None when it is not below that child. */
  function Below(t: Option<Path>, i: nat): Option<Path>
  {
    if t.Some? && |t.value| > 0 && t.value[0] == i then Some(t.value[1..]) else None
  }

  /** Depth-first search for the target, assembling the pointer on the way back. */
  function FindPointer(j: Json, t: Option<Path>): Option<seq<byte>>
    decreases j, 1
  {
    if t == Some([]) then Some([])
    else
      match j
      case Array(es) => FindInElements(es, 0, t)
      case Object(ms) => FindInMembers(ms, 0, t)
      case _ => None
  }

  function FindInElements(es: Elements, c: nat, t: Option<Path>): Option<seq<byte>>
    decreases es, 0
  {
    if es.NoElement? then None
    else
      match FindPointer(es.value, Below(t, c))
      case Some(found) => Some([SLASH] + Decimal(c) + found)
      case None => FindInElements(es.next, c + 1, t)
  }

  function FindInMembers(ms: Members, c: nat, t: Option<Path>): Option<seq<byte>>
    decreases ms, 0
  {
    if ms.NoMember? then None
    else
      match FindPointer(ms.value, Below(t, c))
      case Some(found) => Some([SLASH] + Encode(ms.key) + found)
      case None => FindInMembers(ms.next, c + 1, t)
  }

  /** The pointer to a node: the token of every child on the path. */
  function PointerTo(j: Json, t: Path): seq<byte>
    requires IsNode(j, t)
    decreases |t|
  {
    if |t| == 0 then []
    else
      var token := if j.Array? then Decimal(t[0]) else Encode(NthMember(j.members, t[0]).value.0);
      [SLASH] + token + PointerTo(Child(j, t[0]).value, t[1..])
  }

  /** Where there is no target, nothing is found. */
  lemma {:induction false} NothingFound(j: Json)
    ensures FindPointer(j, None) == None
    decreases j, 1
  {
    match j
    case Array(es) => NothingInElements(es, 0, None);
    case Object(ms) => NothingInMembers(ms, 0, None);
    case _ =>
  }

  lemma {:induction false} NothingInElements(es: Elements, c: nat, t: Option<Path>)
    requires t.None? || (|t.value| > 0 && t.value[0] < c)
    ensures FindInElements(es, c, t) == None
    decreases es, 0
  {
    if es.Element? {
      NothingFound(es.value);
      NothingInElements(es.next, c + 1, t);
    }
  }

  lemma {:induction false} NothingInMembers(ms: Members, c: nat, t: Option<Path>)
    requires t.None? || (|t.value| > 0 && t.value[0] < c)
    ensures FindInMembers(ms, c, t) == None
    decreases ms, 0
  {
    if ms.Member? {
      NothingFound(ms.value);
      NothingInMembers(ms.next, c + 1, t);
    }
  }

  /** The search finds every node, and builds its pointer. */
  lemma {:induction false} FindsNode(j: Json, t: Path)
    requires IsNode(j, t)
    ensures FindPointer(j, Some(t)) == Some(PointerTo(j, t))
    decreases |t|, 1, j
  {
    if |t| > 0 {
      match j
      case Array(es) => FindsElement(es, 0, t);
      case Object(ms) => FindsMember(ms, 0, t);
    }
  }

  lemma {:induction false} FindsElement(es: Elements, c: nat, t: Path)
    requires |t| > 0 && t[0] >= c && NthElement(es, t[0] - c).Some? && IsNode(NthElement(es, t[0] - c).value, t[1..])
    ensures FindInElements(es, c, Some(t)) == Some([SLASH] + Decimal(t[0])
        + PointerTo(NthElement(es, t[0] - c).value, t[1..]))
    decreases |t|, 0, es
  {
    if t[0] == c {
      FindsNode(es.value, t[1..]);
    } else {
      NothingFound(es.value);
      FindsElement(es.next, c + 1, t);
    }
  }

  lemma {:induction false} FindsMember(ms: Members, c: nat, t: Path)
    requires |t| > 0 && t[0] >= c && NthMember(ms, t[0] - c).Some? && IsNode(NthMember(ms, t[0] - c).value.1, t[1..])
    ensures var m := NthMember(ms, t[0] - c).value;
            FindInMembers(ms, c, Some(t)) == Some([SLASH] + Encode(m.0) + PointerTo(m.1, t[1..]))
    decreases |t|, 0, ms
  {
    if t[0] == c {
      FindsNode(ms.value, t[1..]);
    } else {
      NothingFound(ms.value);
      FindsMember(ms.next, c + 1, t);
    }
  }

  // ---------------------------------------------------------------------
  // cJSONUtils_GetPointer
  // ---------------------------------------------------------------------

  /** The first member whose name matches the token. */
  function FirstMatch(ms: Members, e: seq<byte>): Option<nat>
  {
    if ms.NoMember? then None
    else if Matches(ms.key, e) then Some(0)
    else match FirstMatch(ms.next, e) case None => None case Some(i) => Some(i + 1)
  }

  function Through(i: nat, r: Option<Path>): Option<Path>
  {
    if r.None? then None else Some([i] + r.value)
  }

  lemma {:induction false} FirstMatchExists(ms: Members, e: seq<byte>)
    ensures FirstMatch(ms, e).Some? ==> NthMember(ms, FirstMatch(ms, e).value).Some?
  {
    if ms.Member? {
      FirstMatchExists(ms.next, e);
    }
  }

  /** The node that a pointer leads to. */
  function GetPointer(j: Json, p: seq<byte>): Option<Path>
    decreases |p|
  {
    if |p| == 0 || p[0] != SLASH then Some([])
    else
      match j
      case Array(es) =>
        var (which, rest) := Digits(p[1..], 0);
        DigitsShorter(p[1..], 0);
        if |rest| > 0 && rest[0] != SLASH then None
        else (match NthElement(es, which) case None => None case Some(v) => Through(which, GetPointer(v, rest)))
      case Object(ms) =>
        FirstMatchExists(ms, p[1..]);
        (match FirstMatch(ms, p[1..])
         case None => None
         case Some(i) => Through(i, GetPointer(NthMember(ms, i).value.1, AfterToken(p[1..]))))
      case _ => None
  }

  /** No sibling in front of a member on the path has the same name ignoring case. */
  predicate Unshadowed(j: Json, t: Path)
    requires IsNode(j, t)
    decreases |t|
  {
    |t| > 0 ==>
      && (j.Object? ==> FirstOfItsName(j.members, t[0]))
      && Unshadowed(Child(j, t[0]).value, t[1..])
  }

  predicate FirstOfItsName(ms: Members, k: nat)
  {
    forall i :: 0 <= i < k ==> !SameName(ms, i, k)
  }

  predicate SameName(ms: Members, i: nat, k: nat)
  {
    var a, b := NthMember(ms, i), NthMember(ms, k);
    a.Some? && b.Some? && CaseEqual(a.value.0, b.value.0)
  }

  // ---------------------------------------------------------------------
  // The pointer to a node leads back to it
  // ---------------------------------------------------------------------

  lemma PointerShape(j: Json, t: Path)
    requires IsNode(j, t)
    ensures PointerTo(j, t) == [] || PointerTo(j, t)[0] == SLASH
    ensures |PointerTo(j, t)| == 0 <==> |t| == 0
  {
  }

  lemma FirstStep(ms: Members, k: nat)
    requires k > 0 && NthMember(ms, k).Some?
    ensures FirstOfItsName(ms, k) <==> !CaseEqual(ms.key, NthMember(ms, k).value.0) && FirstOfItsName(ms.next, k - 1)
  {
    hide CaseEqual;
    var others, n := ms.next, k - 1;
    if FirstOfItsName(ms, k) {
      assert !SameName(ms, 0, k);
      forall i | 0 <= i < n ensures !SameName(others, i, n) {
        assert !SameName(ms, i + 1, k);
      }
    }
    if !CaseEqual(ms.key, NthMember(ms, k).value.0) && FirstOfItsName(others, n) {
      forall i | 0 <= i < k ensures !SameName(ms, i, k) {
        assert i > 0 ==> !SameName(others, i - 1, n);
      }
    }
  }

  /** The first match is the first member with the same name ignoring case. */
  lemma {:induction false} FirstMatchIs(ms: Members, s: seq<byte>, rest: seq<byte>, k: nat)
    requires (|rest| == 0 || rest[0] == SLASH) && NthMember(ms, k).Some? && NthMember(ms, k).value.0 == s
    ensures FirstMatch(ms, Encode(s) + rest).Some? && FirstMatch(ms, Encode(s) + rest).value <= k
    ensures FirstMatch(ms, Encode(s) + rest) == Some(k) <==> FirstOfItsName(ms, k)
  {
    MatchesEncoded(ms.key, s, rest);
    hide CaseEqual, Matches, SameName;
    if k > 0 {
      FirstMatchIs(ms.next, s, rest, k - 1);
      FirstStep(ms, k);
      hide FirstOfItsName;
    } else {
      SameAsItself(s);
    }
  }

  lemma SameAsItself(s: seq<byte>)
    ensures CaseEqual(s, s)
  {
  }

  /** Following the pointer to a node leads back to the node exactly when no name on the way is shadowed. */
  lemma {:induction false} PointerLeadsBack(j: Json, t: Path)
    requires IsNode(j, t)
    ensures GetPointer(j, PointerTo(j, t)) == Some(t) <==> Unshadowed(j, t)
    decreases |t|
  {
    if |t| > 0 {
      var child := Child(j, t[0]).value;
      var rest := PointerTo(child, t[1..]);
      PointerShape(child, t[1..]);
      PointerLeadsBack(child, t[1..]);
      hide GetPointer, Through, Encode, Decimal, FirstOfItsName;
      if j.Array? {
        ArrayLeads(j, t, rest);
        ThroughIs(t[0], GetPointer(child, rest), t);
      } else {
        ObjectLeads(j, t, rest);
        var s := NthMember(j.members, t[0]).value.0;
        var i := FirstMatch(j.members, Encode(s) + rest).value;
        ThroughIs(i, GetPointer(NthMember(j.members, i).value.1, rest), t);
      }
    }
  }

  lemma ArrayLeads(j: Json, t: Path, rest: seq<byte>)
    requires |t| > 0 && j.Array? && IsNode(j, t) && (|rest| == 0 || rest[0] == SLASH)
    ensures GetPointer(j, [SLASH] + Decimal(t[0]) + rest) == Through(t[0], GetPointer(Child(j, t[0]).value, rest))
  {
    hide Decimal, Digits, GetPointer, Through;
    var p := [SLASH] + Decimal(t[0]) + rest;
    assert p[1..] == Decimal(t[0]) + rest;
    DigitsEnd(rest, t[0]);
    DigitsRead(t[0], rest);
    ElementStep(j, p, t[0], rest);
  }

  lemma DigitsEnd(rest: seq<byte>, n: nat)
    requires |rest| == 0 || rest[0] == SLASH
    ensures Digits(rest, n) == (n, rest)
  {
  }

  lemma ElementStep(j: Json, p: seq<byte>, i: nat, rest: seq<byte>)
    requires j.Array? && |p| > 0 && p[0] == SLASH && Digits(p[1..], 0) == (i, rest) && NthElement(j.elements, i).Some?
    requires |rest| == 0 || rest[0] == SLASH
    ensures GetPointer(j, p) == Through(i, GetPointer(NthElement(j.elements, i).value, rest))
  {
    hide Digits, Through, NthElement, FirstMatch;
  }

  lemma ObjectLeads(j: Json, t: Path, rest: seq<byte>)
    requires |t| > 0 && j.Object? && IsNode(j, t) && (|rest| == 0 || rest[0] == SLASH)
    ensures NthMember(j.members, t[0]).Some?
    ensures var s := NthMember(j.members, t[0]).value.0;
            var m := FirstMatch(j.members, Encode(s) + rest);
            && m.Some? && NthMember(j.members, m.value).Some?
            && (m.value == t[0] <==> FirstOfItsName(j.members, t[0]))
            && GetPointer(j, [SLASH] + Encode(s) + rest) == Through(m.value,
                GetPointer(NthMember(j.members, m.value).value.1, rest))
  {
    hide Encode, FirstOfItsName, GetPointer, Matches, CaseEqual, FirstMatch, AfterToken;
    var s := NthMember(j.members, t[0]).value.0;
    var p := [SLASH] + Encode(s) + rest;
    assert p[1..] == Encode(s) + rest;
    MatchesEncoded(s, s, rest);
    FirstMatchIs(j.members, s, rest, t[0]);
    hide NthMember, IsNode, Child;
    MemberStep(j, p, FirstMatch(j.members, p[1..]).value);
  }

  lemma MemberStep(j: Json, p: seq<byte>, i: nat)
    requires j.Object? && |p| > 0 && p[0] == SLASH && FirstMatch(j.members, p[1..]) == Some(i)
    ensures NthMember(j.members, i).Some?
    ensures GetPointer(j, p) == Through(i, GetPointer(NthMember(j.members, i).value.1, AfterToken(p[1..])))
  {
    FirstMatchExists(j.members, p[1..]);
    hide FirstMatch;
  }

  lemma ThroughIs(i: nat, r: Option<Path>, t: Path)
    requires |t| > 0
    ensures Through(i, r) == Some(t) <==> i == t[0] && r == Some(t[1..])
  {
    if r.Some? {
      assert ([i] + r.value)[1..] == r.value;
    }
    assert [t[0]] + t[1..] == t;
  }

  /** cJSONUtils_GetPointer(o, cJSONUtils_FindPointerFromObjectTo(o, t)) is t, exactly for unshadowed nodes. */
  lemma FindThenGet(j: Json, t: Path)
    requires IsNode(j, t)
    ensures FindPointer(j, Some(t)).Some?
    ensures GetPointer(j, FindPointer(j, Some(t)).value) == Some(t) <==> Unshadowed(j, t)
  {
    FindsNode(j, t);
    PointerLeadsBack(j, t);
  }

  /** The pointer that is built for the second member of {"a": 1, "A": 2} leads to the first. */
  lemma PointerLeadsElsewhere()
    ensures var j := Object(Member([LOWER_A], Number(1), Member([UPPER_A], Number(2), NoMember)));
      && FindPointer(j, Some([1])) == Some([SLASH, UPPER_A])
      && GetPointer(j, [SLASH, UPPER_A]) == Some([0])
  {
    var second := Member([UPPER_A], Number(2), NoMember);
    var ms := Member([LOWER_A], Number(1), second);
    var j, p := Object(ms), [SLASH, UPPER_A];
    EncodedLetter();
    NothingFound(Number(1));
    var t: Path := [1];
    assert t[1..] == [] && [SLASH] + Encode([UPPER_A]) + [] == p;
    assert Below(Some(t), 1) == Some([]) && Below(Some(t), 0) == None;
    assert FindInMembers(second, 1, Some(t)) == Some(p);
    assert FindInMembers(ms, 0, Some(t)) == Some(p);
    assert p[1..] == Encode([UPPER_A]) + [];
    MatchesEncoded([LOWER_A], [UPPER_A], []);
    MemberStep(j, p, 0);
    assert GetPointer(Number(1), []) == Some([]);
    assert [0] + [] == [0];
  }

  const UPPER_A: byte := 65
  const LOWER_A: byte := 97

  lemma EncodedLetter()
    ensures Encode([UPPER_A]) == [UPPER_A]
  {
    assert Encode([]) == [];
  }

  /** Sibling names differ even ignoring case, everywhere in the tree. */
  ghost predicate DistinctNames(j: Json)
  {
    forall t: Path :: IsNode(j, t) ==> DistinctAt(j, t)
  }

  function NodeAt(j: Json, t: Path): Json
    requires IsNode(j, t)
    decreases |t|
  {
    if |t| == 0 then j else NodeAt(Child(j, t[0]).value, t[1..])
  }

  ghost predicate DistinctAt(j: Json, t: Path)
    requires IsNode(j, t)
  {
    NodeAt(j, t).Object? ==> forall k: nat :: FirstOfItsName(NodeAt(j, t).members, k)
  }

  lemma NodeBelow(j: Json, i: nat, u: Path)
    requires Child(j, i).Some? && IsNode(Child(j, i).value, u)
    ensures IsNode(j, [i] + u) && NodeAt(j, [i] + u) == NodeAt(Child(j, i).value, u)
  {
    var v := [i] + u;
    assert v[0] == i && v[1..] == u;
  }

  lemma DistinctHere(j: Json, k: nat)
    requires DistinctAt(j, [])
    ensures j.Object? ==> FirstOfItsName(j.members, k)
  {
    hide FirstOfItsName;
    assert NodeAt(j, []) == j;
  }

  lemma {:induction false} DistinctUnshadowed(j: Json, t: Path)
    requires IsNode(j, t) && forall u: Path :: IsNode(j, u) ==> DistinctAt(j, u)
    ensures Unshadowed(j, t)
    decreases |t|
  {
    if |t| > 0 {
      var child := Child(j, t[0]).value;
      assert DistinctAt(j, []);
      forall u: Path | IsNode(child, u) ensures DistinctAt(child, u) {
        NodeBelow(j, t[0], u);
        assert DistinctAt(j, [t[0]] + u);
      }
      DistinctUnshadowed(child, t[1..]);
      DistinctHere(j, t[0]);
    }
  }

  /** In a tree whose sibling names are distinct ignoring case every node is found again. */
  lemma EveryNodeIsFoundAgain(j: Json, t: Path)
    requires DistinctNames(j) && IsNode(j, t)
    ensures FindPointer(j, Some(t)).Some? && GetPointer(j, FindPointer(j, Some(t)).value) == Some(t)
  {
    DistinctUnshadowed(j, t);
    FindThenGet(j, t);
  }

  // ---------------------------------------------------------------------
  // The loops of the source
  // ---------------------------------------------------------------------

  /** cJSONUtils_Pstrcasecmp(a, e) == 0 */
  method ComparePointer(a: seq<byte>, e: seq<byte>) returns (equal: bool)
    requires NUL !in a && NUL !in e
    ensures equal <==> Matches(a, e)
  {
    var i, k := 0, 0;
    assert a[0..] == a && e[0..] == e;
    while ByteAt(a, i) != NUL && ByteAt(e, k) != NUL && e[k] != SLASH
      invariant 0 <= i <= |a| && 0 <= k <= |e| && (Matches(a[i..], e[k..]) <==> Matches(a, e))
      decreases |e| - k
    {
      assert a[i..][1..] == a[i + 1..] && e[k..][1..] == e[k + 1..];
      assert k + 1 < |e| ==> e[k..][2..] == e[k + 2..];
      if e[k] == TILDE {
        if !(ByteAt(e, k + 1) == ZERO && a[i] == TILDE) && !(ByteAt(e, k + 1) == ONE && a[i] == SLASH) {
          return false;
        }
        k := k + 1;
      } else if Lower(a[i]) != Lower(e[k]) {
        return false;
      }
      i, k := i + 1, k + 1;
    }
    equal := (ByteAt(e, k) != NUL && ByteAt(e, k) != SLASH) == (ByteAt(a, i) != NUL);
  }

  /** cJSONUtils_PointerEncodedstrlen */
  method EncodedLength(s: seq<byte>) returns (l: nat)
    requires NUL !in s
    ensures l == |Encode(s)|
  {
    l := 0;
    var i := 0;
    assert s[0..] == s;
    while ByteAt(s, i) != NUL
      invariant 0 <= i <= |s| && l + |Encode(s[i..])| == |Encode(s)|
      decreases |s| - i
    {
      assert s[i..][1..] == s[i + 1..];
      if s[i] == TILDE || s[i] == SLASH {
        l := l + 1;
      }
      i, l := i + 1, l + 1;
    }
  }

  /** cJSONUtils_PointerEncodedstrcpy: writes exactly the measured length and a NUL. */
  method EncodeInto(d: array<byte>, start: nat, s: seq<byte>)
    requires NUL !in s && start + |Encode(s)| < d.Length
    modifies d
    ensures d[..start + |Encode(s)|] == old(d[..start]) + Encode(s) && d[start + |Encode(s)|] == NUL
  {
    var i: nat, at: nat := 0, start;
    ghost var all := d[..start] + Encode(s);
    assert s[0..] == s;
    while ByteAt(s, i) != NUL
      invariant 0 <= i <= |s| && at + |Encode(s[i..])| == start + |Encode(s)|
      invariant d[..at] + Encode(s[i..]) == all
      decreases |s| - i
    {
      ghost var before := d[..at];
      assert s[i..][1..] == s[i + 1..];
      BlankRegroup(before, EncodeByte(s[i]), Encode(s[i + 1..]));
      hide Encode;
      PutBytes(d, at, EncodeByte(s[i]));
      i, at := i + 1, at + |EncodeByte(s[i])|;
    }
    d[at] := NUL;
  }

  /** cJSONUtils_GetPointer: follow the pointer one token at a time. */
  method FollowPointer(root: Json, pointer: seq<byte>) returns (found: Option<Path>)
    requires NUL !in pointer && NamesOk(root)
    ensures found == GetPointer(root, pointer)
  {
    var node, at, path := root, 0, [];
    ghost var goal := GetPointer(root, pointer);
    assert pointer[0..] == pointer;
    assert goal == Joined([], goal) by {
      if goal.Some? {
        assert [] + goal.value == goal.value;
      }
    }
    while ByteAt(pointer, at) == SLASH
      invariant 0 <= at <= |pointer| && NamesOk(node)
      invariant goal == Joined(path, GetPointer(node, pointer[at..]))
      decreases |pointer| - at
    {
      ghost var p := pointer[at..];
      assert p[1..] == pointer[at + 1..];
      at := at + 1;
      match node {
        case Array(es) =>
          var which, end := ReadIndex(pointer, at);
          if ByteAt(pointer, end) != NUL && ByteAt(pointer, end) != SLASH {
            return None;
          }
          at := end;
          var child := NthElement(es, which);
          if child == None {
            return None;
          }
          NamesInside(node, which);
          JoinedThrough(path, which, GetPointer(child.value, pointer[at..]));
          node, path := child.value, path + [which];
        case Object(ms) =>
          var i := FindMember(ms, pointer[at..]);
          var end := SkipToken(pointer, at);
          if i == None {
            return None;
          }
          FirstMatchExists(ms, pointer[at..]);
          NamesInside(node, i.value);
          at := end;
          JoinedThrough(path, i.value, GetPointer(NthMember(ms, i.value).value.1, pointer[at..]));
          node, path := NthMember(ms, i.value).value.1, path + [i.value];
        case _ =>
          return None;
      }
    }
    found := Some(path);
    assert path + [] == path;
  }

  /** A path, and what follows it. */
  function Joined(path: Path, r: Option<Path>): Option<Path>
  {
    if r.None? then None else Some(path + r.value)
  }

  lemma JoinedThrough(path: Path, i: nat, r: Option<Path>)
    ensures Joined(path, Through(i, r)) == Joined(path + [i], r)
  {
    if r.Some? {
      assert path + ([i] + r.value) == path + [i] + r.value;
    }
  }

  /** Member names are C strings. */
  predicate NamesOk(j: Json)
  {
    match j
    case Array(es) => NamesOkInElements(es)
    case Object(ms) => NamesOkInMembers(ms)
    case _ => true
  }

  predicate NamesOkInElements(es: Elements)
  {
    es.Element? ==> NamesOk(es.value) && NamesOkInElements(es.next)
  }

  predicate NamesOkInMembers(ms: Members)
  {
    ms.Member? ==> NUL !in ms.key && NamesOk(ms.value) && NamesOkInMembers(ms.next)
  }

  lemma NamesInside(j: Json, i: nat)
    requires NamesOk(j) && Child(j, i).Some?
    ensures NamesOk(Child(j, i).value)
  {
    match j
    case Array(es) => NamesInElements(es, i);
    case Object(ms) => NamesInMembers(ms, i);
  }

  lemma {:induction false} NamesInElements(es: Elements, i: nat)
    requires NamesOkInElements(es) && NthElement(es, i).Some?
    ensures NamesOk(NthElement(es, i).value)
  {
    if i > 0 {
      NamesInElements(es.next, i - 1);
    }
  }

  lemma {:induction false} NamesInMembers(ms: Members, i: nat)
    requires NamesOkInMembers(ms) && NthMember(ms, i).Some?
    ensures NamesOk(NthMember(ms, i).value.1)
  {
    if i > 0 {
      NamesInMembers(ms.next, i - 1);
    }
  }

  method ReadIndex(pointer: seq<byte>, start: nat) returns (which: nat, at: nat)
    requires NUL !in pointer && start <= |pointer|
    ensures start <= at <= |pointer| && Digits(pointer[start..], 0) == (which, pointer[at..])
  {
    which, at := 0, start;
    while IsDigit(ByteAt(pointer, at))
      invariant start <= at <= |pointer| && Digits(pointer[start..], 0) == Digits(pointer[at..], which)
      decreases |pointer| - at
    {
      assert pointer[at..][1..] == pointer[at + 1..];
      which := 10 * which + (pointer[at] - ZERO);
      at := at + 1;
    }
  }

  method SkipToken(pointer: seq<byte>, start: nat) returns (at: nat)
    requires NUL !in pointer && start <= |pointer|
    ensures start <= at <= |pointer| && pointer[at..] == AfterToken(pointer[start..])
  {
    at := start;
    while ByteAt(pointer, at) != NUL && pointer[at] != SLASH
      invariant start <= at <= |pointer| && AfterToken(pointer[start..]) == AfterToken(pointer[at..])
      decreases |pointer| - at
    {
      assert pointer[at..][1..] == pointer[at + 1..];
      at := at + 1;
    }
  }

  method FindMember(ms: Members, e: seq<byte>) returns (r: Option<nat>)
    requires NUL !in e && NamesOkInMembers(ms)
    ensures r == FirstMatch(ms, e)
  {
    var child, i := ms, 0;
    while child.Member?
      invariant NamesOkInMembers(child) && i >= 0
      invariant FirstMatch(ms, e) == match FirstMatch(child, e) case None => None case Some(k) => Some(i + k)
      decreases child
    {
      var equal := ComparePointer(child.key, e);
      if equal {
        return Some(i);
      }
      child, i := child.next, i + 1;
    }
    return None;
  }

  /** Child positions are C integers. */
  predicate FewChildren(j: Json)
  {
    match j
    case Array(es) => FewElements(es, 0)
    case Object(ms) => FewMembers(ms)
    case _ => true
  }

  predicate FewElements(es: Elements, c: nat)
  {
    es.Element? ==> c <= INT_MAX && FewChildren(es.value) && FewElements(es.next, c + 1)
  }

  predicate FewMembers(ms: Members)
  {
    ms.Member? ==> FewChildren(ms.value) && FewMembers(ms.next)
  }

  /** The array holds the text of the pointer that was found. */
  ghost predicate IsPointer(ret: Option<array<byte>>, r: Option<seq<byte>>)
    reads if ret.Some? then {ret.value} else {}
  {
    if r.None? then ret.None? else ret.Some? && IsText(ret.value, r.value) && NUL !in r.value
  }

  /** Put a slash and a token in front of a pointer, in an allocation of the given size. */
  method Prepend(token: seq<byte>, found: array<byte>, size: nat, ghost r: seq<byte>) returns (ret: array<byte>)
    requires IsText(found, r) && NUL !in token && NUL !in r && size >= |token| + |r| + 2
    ensures fresh(ret) && IsText(ret, [SLASH] + token + r)
  {
    ret := new byte[size];
    PutBytes(ret, 0, [SLASH]);
    PutBytes(ret, 1, token);
    var n := StrLen(found, r);
    PutBytes(ret, 1 + |token|, found[..n]);
    ret[1 + |token| + n] := NUL;
  }

  /** cJSONUtils_FindPointerFromObjectTo, with its allocations. */
  method SearchPointer(root: Json, t: Option<Path>) returns (ret: Option<array<byte>>)
    requires NamesOk(root) && FewChildren(root)
    ensures IsPointer(ret, FindPointer(root, t))
    decreases root, 1
  {
    if t == Some([]) {
      var empty := new byte[1];
      empty[0] := NUL;
      return Some(empty);
    }
    match root
    case Array(es) =>
      ret := SearchElements(es, 0, t);
    case Object(ms) =>
      ret := SearchMembers(ms, 0, t);
    case _ =>
      ret := None;
  }

  /** The loop over an array's children from position c on. */
  method SearchElements(es: Elements, c: nat, t: Option<Path>) returns (ret: Option<array<byte>>)
    requires NamesOkInElements(es) && FewElements(es, c)
    ensures IsPointer(ret, FindInElements(es, c, t))
    decreases es, 0
  {
    if es.NoElement? {
      return None;
    }
    var found := SearchPointer(es.value, Below(t, c));
    if found.Some? {
      ghost var r := FindPointer(es.value, Below(t, c)).value;
      DecimalHasNoNul(c);
      NumberShort(c);
      var length := StrLen(found.value, r);
      var p := Prepend(Decimal(c), found.value, length + 23, r);
      return Some(p);
    }
    ret := SearchElements(es.next, c + 1, t);
  }

  /** The loop over an object's children from position c on. */
  method SearchMembers(ms: Members, c: nat, t: Option<Path>) returns (ret: Option<array<byte>>)
    requires NamesOkInMembers(ms) && FewMembers(ms)
    ensures IsPointer(ret, FindInMembers(ms, c, t))
    decreases ms, 0
  {
    if ms.NoMember? {
      return None;
    }
    var found := SearchPointer(ms.value, Below(t, c));
    if found.Some? {
      ghost var r := FindPointer(ms.value, Below(t, c)).value;
      EncodeHasNoNul(ms.key);
      var length := StrLen(found.value, r);
      var encoded := EncodedLength(ms.key);
      var p := Prepend(Encode(ms.key), found.value, length + encoded + 2, r);
      return Some(p);
    }
    ret := SearchMembers(ms.next, c + 1, t);
  }

  lemma {:induction false} EncodeHasNoNul(s: seq<byte>)
    requires NUL !in s
    ensures NUL !in Encode(s)
  {
    if |s| > 0 {
      EncodeHasNoNul(s[1..]);
    }
  }
}
