/**
 Which message ids every secondary node still owes the primary node.
 The expected ids live in set objects that a shallow map copy shares with the caller.
 */
module Propagates {
  import opened Prelude

  datatype Response = Response(publisherId: Text, hashMap: map<Text, Text>)

  datatype Propagate = Propagate(publisherId: Text, payload: seq<(Text, Text)>)

  // ----- Addresses -----

  predicate IsHexDigit(u: Unit) {
    '0' as int <= u <= '9' as int || 'a' as int <= u <= 'f' as int || 'A' as int <= u <= 'F' as int
  }

  function LowerHex(u: Unit): Unit {
    if 'A' as int <= u <= 'F' as int then u - 'A' as int + 'a' as int else u
  }

  predicate IsAddress(s: Text) {
    |s| == 42 && s[0] == '0' as int && s[1] == 'x' as int && forall i :: 2 <= i < 42 ==> IsHexDigit(s[i])
  }

  function Lower(s: Text): Text {
    seq(|s|, i requires 0 <= i < |s| => LowerHex(s[i]))
  }

  /** Addresses differ in case only; anything that is not an address throws. */
  function ToEthereumAddress(s: Text): Result<Text> {
    if IsAddress(s) then Ok(Lower(s)) else Thrown("not an Ethereum address")
  }

  const LOWER_DIGITS := "0123456789abcdef"
  const UPPER_DIGITS := "0123456789ABCDEF"

  /** A hexadecimal digit of value `v`, in either case. */
  predicate IsDigitOf(u: Unit, v: int) {
    0 <= v < 16 && (u == LOWER_DIGITS[v] as int || u == UPPER_DIGITS[v] as int)
  }

  lemma DigitOf(u: Unit) returns (v: int)
    ensures IsHexDigit(u) <==> IsDigitOf(u, v)
    ensures IsHexDigit(u) <==> exists w :: IsDigitOf(u, w)
    ensures IsHexDigit(u) ==> LowerHex(u) == LOWER_DIGITS[v] as int
  {
    v := if u <= '9' as int then u - '0' as int else if u <= 'F' as int then u - 'A' as int + 10 else u - 'a' as int + 10;
  }

  lemma DigitIsOne(u: Unit, v: int, w: int)
    requires IsDigitOf(u, v) && IsDigitOf(u, w)
    ensures v == w
  {
  }

  /** Texts of `0x` and 40 digits are the same address when the digits have the same values. */
  ghost predicate SameAddress(s: Text, t: Text) {
    && |s| == 42 && |t| == 42 && s[..2] == Units("0x") && t[..2] == Units("0x")
    && forall i :: 2 <= i < 42 ==> SameDigit(s[i], t[i])
  }

  ghost predicate SameDigit(u: Unit, w: Unit) {
    exists v :: IsDigitOf(u, v) && IsDigitOf(w, v)
  }

  lemma SameDigitIff(u: Unit, w: Unit)
    ensures SameDigit(u, w) <==> IsHexDigit(u) && IsHexDigit(w) && LowerHex(u) == LowerHex(w)
    ensures IsHexDigit(u) && LowerHex(u) == LowerHex(w) ==> IsHexDigit(w)
  {
    var v := DigitOf(u);
    var x := DigitOf(w);
    if y :| IsDigitOf(u, y) && IsDigitOf(w, y) {
      DigitIsOne(u, v, y);
      DigitIsOne(w, x, y);
    }
  }

  lemma AddressPrefix(s: Text)
    requires |s| == 42
    ensures s[..2] == Units("0x") <==> s[0] == '0' as int && s[1] == 'x' as int
  {
    assert s[..2][0] == s[0] && s[..2][1] == s[1];
    assert Units("0x")[0] == '0' as int && Units("0x")[1] == 'x' as int;
  }

  /** An address is `0x` and 40 hexadecimal digits: what is the same address as itself. */
  lemma AddressesAre(s: Text)
    ensures IsAddress(s) <==> SameAddress(s, s)
  {
    if |s| == 42 {
      AddressPrefix(s);
      forall i | 2 <= i < 42 ensures SameDigit(s[i], s[i]) <==> IsHexDigit(s[i]) {
        SameDigitIff(s[i], s[i]);
      }
    }
  }

  /** Lower case identifies exactly the texts of one address. */
  lemma LowerSameIff(s: Text, t: Text)
    requires IsAddress(s)
    ensures Lower(s) == Lower(t) <==> SameAddress(s, t)
  {
    AddressPrefix(s);
    if |t| == 42 {
      AddressPrefix(t);
      forall i | 0 <= i < 42 ensures Lower(s)[i] == LowerHex(s[i]) && Lower(t)[i] == LowerHex(t[i]) {
      }
      forall i | 2 <= i < 42 ensures SameDigit(s[i], t[i]) <==> LowerHex(s[i]) == LowerHex(t[i]) {
        SameDigitIff(s[i], t[i]);
        SameDigitIff(t[i], s[i]);
      }
      assert Lower(s)[0] == '0' as int && Lower(s)[1] == 'x' as int;
      assert Lower(s) == Lower(t) <==> forall i :: 0 <= i < 42 ==> Lower(s)[i] == Lower(t)[i];
    } else {
      assert |Lower(s)| == 42 && |Lower(t)| == |t|;
    }
  }

  // ----- The simple computation, on values -----

  /** What each address is expected to propagate, the later response of an address replacing the earlier one. */
  function Expected(secondary: seq<Response>, primary: Response): map<Text, set<Text>>
    requires forall r :: r in secondary ==> IsAddress(r.publisherId)
  {
    if secondary == [] then map[]
    else
      var last := secondary[|secondary| - 1];
      Expected(secondary[..|secondary| - 1], primary)[Lower(last.publisherId) := last.hashMap.Keys - primary.hashMap.Keys]
  }

  function Ids(payload: seq<(Text, Text)>): set<Text> {
    set entry | entry in payload :: entry.0
  }

  /** Every id that `address` propagated, in either case of its letters. */
  function PropagatedBy(propagates: seq<Propagate>, address: Text): set<Text> {
    if propagates == [] then {}
    else
      var last := propagates[|propagates| - 1];
      PropagatedBy(propagates[..|propagates| - 1], address) +
      if Lower(last.publisherId) == address then Ids(last.payload) else {}
  }

  lemma {:induction false} PropagatedByMeans(propagates: seq<Propagate>, address: Text, id: Text)
    ensures id in PropagatedBy(propagates, address) <==>
            exists p :: p in propagates && Lower(p.publisherId) == address && id in Ids(p.payload)
  {
    if propagates != [] {
      var n := |propagates| - 1;
      PropagatedByMeans(propagates[..n], address, id);
      assert propagates == propagates[..n] + [propagates[n]];
    }
  }

  function Remaining(expected: map<Text, set<Text>>, propagates: seq<Propagate>): map<Text, set<Text>> {
    map a | a in expected :: expected[a] - PropagatedBy(propagates, a)
  }

  /** How many propagates are handled before one with a malformed address throws. */
  function Handled(propagates: seq<Propagate>): (n: nat)
    ensures n <= |propagates|
    ensures forall i :: 0 <= i < n ==> IsAddress(propagates[i].publisherId)
    ensures n < |propagates| ==> !IsAddress(propagates[n].publisherId)
  {
    if propagates == [] || !IsAddress(propagates[0].publisherId) then 0
    else 1 + Handled(propagates[1..])
  }

  // ----- The program, on shared set objects -----

  /** A JavaScript `Set`, shared by reference. */
  class IdSet {
    var ids: set<Text>

    constructor (ids: set<Text>)
      ensures this.ids == ids
    {
      this.ids := ids;
    }
  }

  type NodeMap = map<Text, IdSet>

  ghost function View(m: NodeMap): map<Text, set<Text>>
    reads m.Values
  {
    map a | a in m :: m[a].ids
  }

  /** Different addresses own different set objects. */
  ghost predicate Unshared(m: NodeMap) {
    forall a, b :: a in m && b in m && a != b ==> m[a] != m[b]
  }

  method GetExpectedPropagatedMessages(secondary: seq<Response>, primary: Response) returns (r: Result<NodeMap>)
    ensures r.Ok? <==> forall s :: s in secondary ==> IsAddress(s.publisherId)
    ensures r.Ok? ==> Unshared(r.value) && fresh(r.value.Values)
    ensures r.Ok? ==> View(r.value) == Expected(secondary, primary)
  {
    var m: NodeMap := map[];
    for i := 0 to |secondary|
      invariant forall s :: s in secondary[..i] ==> IsAddress(s.publisherId)
      invariant Unshared(m) && fresh(m.Values)
      invariant View(m) == Expected(secondary[..i], primary)
    {
      var address := ToEthereumAddress(secondary[i].publisherId);
      if address.Thrown? {
        assert secondary[i] in secondary;
        return Thrown(address.reason);
      }
      var owed := new IdSet(secondary[i].hashMap.Keys - primary.hashMap.Keys);
      ghost var before := m;
      m := m[address.value := owed];
      assert m.Values <= before.Values + {owed};
      assert secondary[..i + 1][..i] == secondary[..i];
    }
    assert secondary[..|secondary|] == secondary;
    return Ok(m);
  }

  /** One propagate deletes its ids from the set of its address, one id at a time. */
  method DeleteIds(owed: IdSet, payload: seq<(Text, Text)>)
    modifies owed
    ensures owed.ids == old(owed.ids) - Ids(payload)
  {
    for j := 0 to |payload|
      invariant owed.ids == old(owed.ids) - Ids(payload[..j])
    {
      owed.ids := owed.ids - {payload[j].0};
      assert payload[..j + 1] == payload[..j] + [payload[j]];
    }
    assert payload[..|payload|] == payload;
  }

  method HandlePropagate(expected: NodeMap, propagate: Propagate, ghost before: map<Text, set<Text>>, ghost seen: seq<Propagate>)
    requires Unshared(expected)
    requires View(expected) == Remaining(before, seen)
    modifies expected.Values
    ensures View(expected) == Remaining(before, seen + [propagate])
  {
    ghost var target := Remaining(View(expected), [propagate]);
    RemainingTwice(before, seen, [propagate]);
    assert [propagate][..0] == [];
    var address := Lower(propagate.publisherId);
    if address in expected {
      DeleteIds(expected[address], propagate.payload);
    }
    assert View(expected).Keys == target.Keys;
    forall a | a in expected ensures expected[a].ids == target[a] {
      assert PropagatedBy([propagate], a) == if address == a then Ids(propagate.payload) else {};
    }
  }

  /** The copy without the addresses that owe nothing; it holds the same set objects. */
  function WithoutEmpty(m: NodeMap): NodeMap
    reads m.Values
  {
    map a | a in m && m[a].ids != {} :: m[a]
  }

  /**
   The copy shares its inner sets with `expected`, so the deletions stay behind in the caller's map;
   emptied addresses are dropped from the copy only.
   */
  method GetMissingPropagatedMessages(expected: NodeMap, propagates: seq<Propagate>) returns (r: Result<NodeMap>)
    requires Unshared(expected)
    modifies expected.Values
    ensures View(expected) == Remaining(old(View(expected)), propagates[..Handled(propagates)])
    ensures r.Ok? <==> Handled(propagates) == |propagates|
    ensures r.Ok? ==> forall a :: a in r.value <==> a in expected && expected[a].ids != {}
    ensures r.Ok? ==> forall a :: a in r.value ==> r.value[a] == expected[a]
  {
    ghost var before := View(expected);
    NothingPropagated(before);
    var i := 0;
    while i < |propagates|
      invariant 0 <= i <= |propagates| && AllAddresses(propagates[..i])
      invariant View(expected) == Remaining(before, propagates[..i])
    {
      assert propagates[..i + 1] == propagates[..i] + [propagates[i]];
      var address := ToEthereumAddress(propagates[i].publisherId);
      if address.Thrown? {
        HandledIs(propagates, i);
        return Thrown(address.reason);
      }
      HandlePropagate(expected, propagates[i], before, propagates[..i]);
      i := i + 1;
    }
    HandledIs(propagates, i);
    return Ok(WithoutEmpty(expected));
  }

  ghost predicate AllAddresses(propagates: seq<Propagate>) {
    forall p :: p in propagates ==> IsAddress(p.publisherId)
  }

  lemma HandledIs(propagates: seq<Propagate>, i: nat)
    requires i <= |propagates| && AllAddresses(propagates[..i])
    requires i < |propagates| ==> !IsAddress(propagates[i].publisherId)
    ensures Handled(propagates) == i
  {
    forall j | 0 <= j < i ensures IsAddress(propagates[j].publisherId) {
      assert propagates[..i][j] == propagates[j];
    }
  }

  lemma NothingPropagated(expected: map<Text, set<Text>>)
    ensures Remaining(expected, []) == expected
  {
    var remaining := Remaining(expected, []);
    forall a | a in expected ensures remaining[a] == expected[a] {
      assert PropagatedBy([], a) == {};
    }
    assert remaining.Keys == expected.Keys;
  }

  // ----- Re-evaluation, and what an empty result means -----

  /** The expected sets after evaluations over the given lists, one after the other. */
  ghost function AfterAll(expected: map<Text, set<Text>>, lists: seq<seq<Propagate>>): map<Text, set<Text>> {
    if lists == [] then expected
    else Remaining(AfterAll(expected, lists[..|lists| - 1]), lists[|lists| - 1])
  }

  ghost function Flatten(lists: seq<seq<Propagate>>): seq<Propagate> {
    if lists == [] then [] else Flatten(lists[..|lists| - 1]) + lists[|lists| - 1]
  }

  lemma {:induction false} PropagatedByBoth(first: seq<Propagate>, second: seq<Propagate>, a: Text)
    ensures PropagatedBy(first + second, a) == PropagatedBy(first, a) + PropagatedBy(second, a)
  {
    if second == [] {
      assert first + second == first;
    } else {
      var n := |second| - 1;
      PropagatedByBoth(first, second[..n], a);
      assert (first + second)[..|first| + n] == first + second[..n];
    }
  }

  lemma RemainingTwice(expected: map<Text, set<Text>>, first: seq<Propagate>, second: seq<Propagate>)
    ensures Remaining(Remaining(expected, first), second) == Remaining(expected, first + second)
  {
    var twice, once := Remaining(Remaining(expected, first), second), Remaining(expected, first + second);
    forall a | a in expected ensures twice[a] == once[a] {
      PropagatedByBoth(first, second, a);
    }
    assert twice.Keys == once.Keys;
  }

  lemma RemainingSame(expected: map<Text, set<Text>>, first: seq<Propagate>, second: seq<Propagate>)
    requires forall p :: p in first <==> p in second
    ensures Remaining(expected, first) == Remaining(expected, second)
  {
    forall a | a in expected ensures PropagatedBy(first, a) == PropagatedBy(second, a) {
      forall id ensures id in PropagatedBy(first, a) <==> id in PropagatedBy(second, a) {
        PropagatedByMeans(first, a, id);
        PropagatedByMeans(second, a, id);
      }
    }
  }

  /** What the shared sets remember is the union of all lists seen so far. */
  lemma {:induction false} EvaluationsAccumulate(expected: map<Text, set<Text>>, lists: seq<seq<Propagate>>)
    ensures AfterAll(expected, lists) == Remaining(expected, Flatten(lists))
  {
    if lists == [] {
      NothingPropagated(expected);
    } else {
      var n := |lists| - 1;
      EvaluationsAccumulate(expected, lists[..n]);
      RemainingTwice(expected, Flatten(lists[..n]), lists[n]);
    }
  }

  lemma {:induction false} FlattenContains(lists: seq<seq<Propagate>>, p: Propagate)
    ensures p in Flatten(lists) <==> exists l :: l in lists && p in l
  {
    if lists != [] {
      var n := |lists| - 1;
      FlattenContains(lists[..n], p);
      assert lists == lists[..n] + [lists[n]];
    }
  }

  /**
   Although the sets are shared, re-evaluating over a list that keeps everything seen before
   gives the same answer as one fresh evaluation of that list.
   */
  lemma ReevaluationIsFresh(expected: map<Text, set<Text>>, lists: seq<seq<Propagate>>)
    requires lists != []
    requires forall l, p :: l in lists && p in l ==> p in lists[|lists| - 1]
    ensures AfterAll(expected, lists) == Remaining(expected, lists[|lists| - 1])
  {
    EvaluationsAccumulate(expected, lists);
    forall p ensures p in Flatten(lists) <==> p in lists[|lists| - 1] {
      FlattenContains(lists, p);
    }
    RemainingSame(expected, Flatten(lists), lists[|lists| - 1]);
  }

  /** A list that lost something is answered as if it had not: the sets do not come back. */
  lemma ReevaluationAfterLoss(expected: map<Text, set<Text>>, before: seq<Propagate>, after: seq<Propagate>)
    ensures AfterAll(expected, [before, after]) == Remaining(expected, after) <==>
            forall a :: a in expected ==> expected[a] * PropagatedBy(before, a) <= PropagatedBy(after, a)
  {
    var lists := [before, after];
    assert lists[..1] == [before] && [before][..0] == [];
    assert AfterAll(expected, [before]) == Remaining(expected, before);
    assert AfterAll(expected, lists) == Remaining(Remaining(expected, before), after);
    var twice, once := Remaining(Remaining(expected, before), after), Remaining(expected, after);
    forall a | a in expected
      ensures twice[a] == once[a] <==> expected[a] * PropagatedBy(before, a) <= PropagatedBy(after, a)
    {
      if twice[a] == once[a] {
        forall id | id in expected[a] * PropagatedBy(before, a) ensures id in PropagatedBy(after, a) {
          assert id !in twice[a];
        }
      }
    }
  }

  /** The response that counts for an address: the last one published under it. */
  ghost predicate IsLatest(secondary: seq<Response>, k: nat) {
    && k < |secondary|
    && forall j :: k < j < |secondary| ==> !SameAddress(secondary[k].publisherId, secondary[j].publisherId)
  }

  /** The latest response of an address decides what is expected of it. */
  lemma {:induction false} LatestDecides(secondary: seq<Response>, primary: Response, k: nat)
    requires forall r :: r in secondary ==> IsAddress(r.publisherId)
    requires IsLatest(secondary, k)
    ensures Lower(secondary[k].publisherId) in Expected(secondary, primary)
    ensures Expected(secondary, primary)[Lower(secondary[k].publisherId)] ==
            secondary[k].hashMap.Keys - primary.hashMap.Keys
  {
    var n := |secondary| - 1;
    if k < n {
      assert !SameAddress(secondary[k].publisherId, secondary[n].publisherId);
      LowerSameIff(secondary[k].publisherId, secondary[n].publisherId);
      LatestDecides(secondary[..n], primary, k);
    }
  }

  /** A later response of another address leaves the latest one in place. */
  lemma LatestStays(secondary: seq<Response>, k: nat)
    requires secondary != [] && IsLatest(secondary[..|secondary| - 1], k)
    requires !SameAddress(secondary[k].publisherId, secondary[|secondary| - 1].publisherId)
    ensures IsLatest(secondary, k)
  {
    var n := |secondary| - 1;
    forall j | k < j < |secondary| ensures !SameAddress(secondary[k].publisherId, secondary[j].publisherId) {
      if j < n {
        assert secondary[..n][j] == secondary[j] && secondary[..n][k] == secondary[k];
      }
    }
  }

  lemma {:induction false} LatestExists(secondary: seq<Response>, primary: Response, a: Text) returns (k: nat)
    requires forall r :: r in secondary ==> IsAddress(r.publisherId)
    requires a in Expected(secondary, primary)
    ensures IsLatest(secondary, k) && Lower(secondary[k].publisherId) == a
  {
    var n := |secondary| - 1;
    k := n;
    if Lower(secondary[n].publisherId) != a {
      k := LatestExists(secondary[..n], primary, a);
      assert secondary[k] in secondary && secondary[..n][k] == secondary[k];
      LowerSameIff(secondary[k].publisherId, secondary[n].publisherId);
      LatestStays(secondary, k);
    }
  }

  /** Some propagate of that address lists `id`. */
  ghost predicate Propagated(propagates: seq<Propagate>, publisherId: Text, id: Text) {
    exists p, entry :: p in propagates && entry in p.payload && SameAddress(publisherId, p.publisherId) && entry.0 == id
  }

  lemma PropagatedIff(propagates: seq<Propagate>, publisherId: Text, id: Text)
    requires IsAddress(publisherId)
    ensures id in PropagatedBy(propagates, Lower(publisherId)) <==> Propagated(propagates, publisherId, id)
  {
    PropagatedByMeans(propagates, Lower(publisherId), id);
    forall p | p in propagates
      ensures Lower(p.publisherId) == Lower(publisherId) <==> SameAddress(publisherId, p.publisherId)
    {
      LowerSameIff(publisherId, p.publisherId);
    }
  }

  /** A secondary's latest response lists `id`, the primary does not have it, and that node did not propagate it. */
  ghost predicate Owed(secondary: seq<Response>, primary: Response, propagates: seq<Propagate>, k: nat, id: Text) {
    && IsLatest(secondary, k)
    && id in secondary[k].hashMap
    && id !in primary.hashMap
    && !Propagated(propagates, secondary[k].publisherId, id)
  }

  lemma OwedIsMissing(secondary: seq<Response>, primary: Response, propagates: seq<Propagate>, a: Text)
    requires forall r :: r in secondary ==> IsAddress(r.publisherId)
    requires a in Expected(secondary, primary)
    ensures Remaining(Expected(secondary, primary), propagates)[a] != {} <==>
            exists k: nat, id :: Owed(secondary, primary, propagates, k, id) && Lower(secondary[k].publisherId) == a
  {
    var missing := Remaining(Expected(secondary, primary), propagates)[a];
    var k := LatestExists(secondary, primary, a);
    LatestDecides(secondary, primary, k);
    if missing != {} {
      var id :| id in missing;
      PropagatedIff(propagates, secondary[k].publisherId, id);
      assert Owed(secondary, primary, propagates, k, id);
    }
    if j: nat, id :| Owed(secondary, primary, propagates, j, id) && Lower(secondary[j].publisherId) == a {
      LatestDecides(secondary, primary, j);
      PropagatedIff(propagates, secondary[j].publisherId, id);
      assert id in missing;
    }
  }

  /** Nothing is missing exactly when every id a secondary has beyond the primary was propagated by that same node. */
  lemma NothingMissingMeansNothingOwed(secondary: seq<Response>, primary: Response, propagates: seq<Propagate>)
    requires forall r :: r in secondary ==> IsAddress(r.publisherId)
    ensures (forall a :: a in Expected(secondary, primary) ==> Remaining(Expected(secondary, primary), propagates)[a] == {})
            <==> !exists k: nat, id :: Owed(secondary, primary, propagates, k, id)
  {
    var expected := Expected(secondary, primary);
    if k: nat, id :| Owed(secondary, primary, propagates, k, id) {
      var a := Lower(secondary[k].publisherId);
      LatestDecides(secondary, primary, k);
      OwedIsMissing(secondary, primary, propagates, a);
    }
    if a :| a in expected && Remaining(expected, propagates)[a] != {} {
      OwedIsMissing(secondary, primary, propagates, a);
    }
  }
}
