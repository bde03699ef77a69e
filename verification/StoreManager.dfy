/** The incremental list of stores that a validator folds out of contract events. */
module StoreManager {

  /** `StoreUpdated` adds `amount` to a store, `DataStored` takes a fee from it. */
  datatype Event =
    | StoreUpdated(block: nat, store: string, amount: int)
    | DataStored(block: nat, store: string, fees: nat)

  /** Contract events in the order of the chain. */
  type Ledger = seq<Event>

  ghost predicate InBlockOrder(ledger: Ledger) {
    forall i, j :: 0 <= i < j < |ledger| ==> ledger[i].block <= ledger[j].block
  }

  datatype Change = Change(store: string, amount: int)

  function ChangeOf(e: Event): Change {
    match e
    case StoreUpdated(_, store, amount) => Change(store, amount)
    case DataStored(_, store, fees) => Change(store, fees)
  }

  predicate Selected(e: Event, fees: bool, from: int, to: int) {
    e.DataStored? == fees && from <= e.block <= to
  }

  /** `queryFilter` for one kind of event over a range of blocks, both ends included. */
  function QueryFilter(ledger: Ledger, fees: bool, from: int, to: int): seq<Change> {
    if ledger == [] then []
    else
      var last := ledger[|ledger| - 1];
      QueryFilter(ledger[..|ledger| - 1], fees, from, to) + if Selected(last, fees, from, to) then [ChangeOf(last)] else []
  }

  datatype Store = Store(id: string, amount: int)

  function FindIndex(stores: seq<Store>, id: string): (i: int)
    ensures -1 <= i < |stores|
    ensures i >= 0 ==> stores[i].id == id
    ensures i < 0 ==> forall j :: 0 <= j < |stores| ==> stores[j].id != id
  {
    if stores == [] then -1
    else if stores[0].id == id then 0
    else
      var i := FindIndex(stores[1..], id);
      if i < 0 then -1 else i + 1
  }

  function Add(stores: seq<Store>, c: Change): seq<Store> {
    var i := FindIndex(stores, c.store);
    if i < 0 then stores + [Store(c.store, c.amount)]
    else stores[i := Store(c.store, stores[i].amount + c.amount)]
  }

  /** A fee for a store that is not in the list is dropped. */
  function Sub(stores: seq<Store>, c: Change): seq<Store> {
    var i := FindIndex(stores, c.store);
    if i < 0 then stores else stores[i := Store(c.store, stores[i].amount - c.amount)]
  }

  function AddAll(stores: seq<Store>, changes: seq<Change>): seq<Store> {
    if changes == [] then stores
    else Add(AddAll(stores, changes[..|changes| - 1]), changes[|changes| - 1])
  }

  function SubAll(stores: seq<Store>, changes: seq<Change>): seq<Store> {
    if changes == [] then stores
    else Sub(SubAll(stores, changes[..|changes| - 1]), changes[|changes| - 1])
  }

  datatype State = State(fromBlockNumber: int, stores: seq<Store>)

  const INITIAL := State(0, [])

  /** The state after one call for the blocks from `from` to `to`. */
  function GetStores(s: State, ledger: Ledger, from: int, to: int): State {
    var start := if s.fromBlockNumber < from then from else s.fromBlockNumber;
    if start > to then State(start, s.stores)
    else
      var added := AddAll(s.stores, QueryFilter(ledger, false, start, to));
      State(to + 1, SubAll(added, QueryFilter(ledger, true, start, to)))
  }

  class Manager {
    var fromBlockNumber: int
    var stores: seq<Store>

    constructor ()
      ensures Model() == INITIAL
    {
      fromBlockNumber, stores := 0, [];
    }

    function Model(): State
      reads this
    {
      State(fromBlockNumber, stores)
    }

    method AddUpdates(updates: seq<Change>)
      modifies this`stores
      ensures stores == AddAll(old(stores), updates)
    {
      for i := 0 to |updates|
        invariant stores == AddAll(old(stores), updates[..i])
      {
        var c := updates[i];
        var sIndex := FindIndex(stores, c.store);
        assert updates[..i + 1][..i] == updates[..i];
        if sIndex < 0 {
          stores := stores + [Store(c.store, c.amount)];
        } else {
          stores := stores[sIndex := Store(c.store, stores[sIndex].amount + c.amount)];
        }
      }
      assert updates[..|updates|] == updates;
    }

    method SubtractFees(fees: seq<Change>)
      modifies this`stores
      ensures stores == SubAll(old(stores), fees)
    {
      for i := 0 to |fees|
        invariant stores == SubAll(old(stores), fees[..i])
      {
        var c := fees[i];
        var sIndex := FindIndex(stores, c.store);
        assert fees[..i + 1][..i] == fees[..i];
        if sIndex >= 0 {
          stores := stores[sIndex := Store(c.store, stores[sIndex].amount - c.amount)];
        }
      }
      assert fees[..|fees|] == fees;
    }

    method Update(ledger: Ledger, from: int, to: int) returns (r: seq<Store>)
      modifies this
      ensures Model() == GetStores(old(Model()), ledger, from, to)
      ensures r == stores
    {
      if fromBlockNumber < from {
        fromBlockNumber := from;
      }
      if fromBlockNumber > to {
        return stores;
      }
      AddUpdates(QueryFilter(ledger, false, fromBlockNumber, to));
      SubtractFees(QueryFilter(ledger, true, fromBlockNumber, to));
      fromBlockNumber := to + 1;
      return stores;
    }
  }

  // ----- What a list of stores says: its ids in order, and the amount of each -----

  ghost function Ids(stores: seq<Store>): seq<string> {
    seq(|stores|, i requires 0 <= i < |stores| => stores[i].id)
  }

  ghost predicate Distinct(ids: seq<string>) {
    forall i, j :: 0 <= i < j < |ids| ==> ids[i] != ids[j]
  }

  ghost function Amount(stores: seq<Store>, id: string): int {
    var i := FindIndex(stores, id);
    if i < 0 then 0 else stores[i].amount
  }

  ghost function Sum(changes: seq<Change>, id: string): int {
    if changes == [] then 0
    else
      var last := changes[|changes| - 1];
      Sum(changes[..|changes| - 1], id) + if last.store == id then last.amount else 0
  }

  /** The ids in the order in which they first appear. */
  ghost function FirstSeen(ids: seq<string>, changes: seq<Change>): seq<string> {
    if changes == [] then ids
    else
      var before := FirstSeen(ids, changes[..|changes| - 1]);
      var id := changes[|changes| - 1].store;
      if id in before then before else before + [id]
  }

  lemma FindIndexIs(stores: seq<Store>, i: nat)
    requires Distinct(Ids(stores)) && i < |stores|
    ensures FindIndex(stores, stores[i].id) == i
  {
    var j := FindIndex(stores, stores[i].id);
    assert j >= 0;
    assert Ids(stores)[j] == Ids(stores)[i];
  }

  lemma InIds(stores: seq<Store>, id: string)
    ensures id in Ids(stores) <==> FindIndex(stores, id) >= 0
  {
    var i := FindIndex(stores, id);
    if i >= 0 {
      assert Ids(stores)[i] == id;
    }
  }

  lemma AmountAt(stores: seq<Store>, i: nat)
    requires Distinct(Ids(stores)) && i < |stores|
    ensures Amount(stores, stores[i].id) == stores[i].amount
  {
    FindIndexIs(stores, i);
  }

  /** Ids and amounts determine the list. */
  lemma SameList(a: seq<Store>, b: seq<Store>)
    requires Ids(a) == Ids(b) && Distinct(Ids(a))
    requires forall id :: id in Ids(a) ==> Amount(a, id) == Amount(b, id)
    ensures a == b
  {
    assert |a| == |Ids(a)| == |Ids(b)| == |b|;
    forall i | 0 <= i < |a| ensures a[i] == b[i] {
      assert a[i].id == Ids(a)[i] == Ids(b)[i] == b[i].id;
      AmountAt(a, i);
      AmountAt(b, i);
    }
  }

  lemma AddMeans(stores: seq<Store>, c: Change, id: string)
    requires Distinct(Ids(stores))
    ensures Ids(Add(stores, c)) == if c.store in Ids(stores) then Ids(stores) else Ids(stores) + [c.store]
    ensures Distinct(Ids(Add(stores, c)))
    ensures Amount(Add(stores, c), id) == Amount(stores, id) + if c.store == id then c.amount else 0
  {
    var after := Add(stores, c);
    InIds(stores, c.store);
    assert Ids(after) == if c.store in Ids(stores) then Ids(stores) else Ids(stores) + [c.store];
    InIds(after, id);
    InIds(stores, id);
    var i := FindIndex(stores, id);
    if i >= 0 {
      AmountAt(after, i);
    } else if c.store == id {
      AmountAt(after, |stores|);
    }
  }

  lemma SubMeans(stores: seq<Store>, c: Change, id: string)
    requires Distinct(Ids(stores))
    ensures Ids(Sub(stores, c)) == Ids(stores)
    ensures Amount(Sub(stores, c), id) == Amount(stores, id) - if c.store == id && id in Ids(stores) then c.amount else 0
  {
    var after := Sub(stores, c);
    assert Ids(after) == Ids(stores);
    InIds(after, id);
    InIds(stores, id);
    var i := FindIndex(stores, id);
    if i >= 0 {
      AmountAt(after, i);
    }
  }

  lemma {:induction false} AddAllMeans(stores: seq<Store>, changes: seq<Change>, id: string)
    requires Distinct(Ids(stores))
    ensures Ids(AddAll(stores, changes)) == FirstSeen(Ids(stores), changes)
    ensures Distinct(Ids(AddAll(stores, changes)))
    ensures Amount(AddAll(stores, changes), id) == Amount(stores, id) + Sum(changes, id)
  {
    if changes != [] {
      var n := |changes| - 1;
      AddAllMeans(stores, changes[..n], id);
      AddMeans(AddAll(stores, changes[..n]), changes[n], id);
    }
  }

  lemma {:induction false} SubAllMeans(stores: seq<Store>, changes: seq<Change>, id: string)
    requires Distinct(Ids(stores))
    ensures Ids(SubAll(stores, changes)) == Ids(stores)
    ensures Amount(SubAll(stores, changes), id) == Amount(stores, id) - if id in Ids(stores) then Sum(changes, id) else 0
  {
    if changes != [] {
      var n := |changes| - 1;
      SubAllMeans(stores, changes[..n], id);
      SubMeans(SubAll(stores, changes[..n]), changes[n], id);
    }
  }

  // ----- Splitting a range of blocks -----

  lemma {:induction false} NothingSelected(ledger: Ledger, fees: bool, from: int, to: int)
    requires forall e :: e in ledger ==> !Selected(e, fees, from, to)
    ensures QueryFilter(ledger, fees, from, to) == []
  {
    if ledger != [] {
      NothingSelected(ledger[..|ledger| - 1], fees, from, to);
    }
  }

  /** Two adjacent ranges hold the events of the whole range, none twice and none skipped. */
  lemma {:induction false} RangesJoin(ledger: Ledger, fees: bool, from: int, mid: int, to: int)
    requires InBlockOrder(ledger) && from <= mid + 1 && mid <= to
    ensures QueryFilter(ledger, fees, from, mid) + QueryFilter(ledger, fees, mid + 1, to) == QueryFilter(ledger, fees, from, to)
  {
    if ledger != [] {
      var n := |ledger| - 1;
      RangesJoin(ledger[..n], fees, from, mid, to);
      if Selected(ledger[n], fees, from, mid) {
        NothingSelected(ledger[..n], fees, mid + 1, to);
      }
    }
  }

  lemma {:induction false} FirstSeenJoins(ids: seq<string>, a: seq<Change>, b: seq<Change>)
    ensures FirstSeen(ids, a + b) == FirstSeen(FirstSeen(ids, a), b)
  {
    if b == [] {
      assert a + b == a;
    } else {
      var n := |b| - 1;
      assert (a + b)[..|a| + n] == a + b[..n];
      FirstSeenJoins(ids, a, b[..n]);
    }
  }

  lemma {:induction false} SumJoins(a: seq<Change>, b: seq<Change>, id: string)
    ensures Sum(a + b, id) == Sum(a, id) + Sum(b, id)
  {
    if b == [] {
      assert a + b == a;
    } else {
      var n := |b| - 1;
      assert (a + b)[..|a| + n] == a + b[..n];
      SumJoins(a, b[..n], id);
    }
  }

  lemma {:induction false} FirstSeenHas(ids: seq<string>, changes: seq<Change>, id: string)
    ensures id in FirstSeen(ids, changes) <==> id in ids || exists c :: c in changes && c.store == id
  {
    if changes != [] {
      var n := |changes| - 1;
      FirstSeenHas(ids, changes[..n], id);
      assert changes == changes[..n] + [changes[n]];
    }
  }

  lemma {:induction false} QueryFilterHas(ledger: Ledger, fees: bool, from: int, to: int, c: Change)
    ensures c in QueryFilter(ledger, fees, from, to) <==>
            exists e :: e in ledger && Selected(e, fees, from, to) && ChangeOf(e) == c
  {
    if ledger != [] {
      var n := |ledger| - 1;
      QueryFilterHas(ledger[..n], fees, from, to, c);
      assert ledger == ledger[..n] + [ledger[n]];
    }
  }

  // ----- Any sequence of calls against one recomputation -----

  /** The manager after one call per end block, all with the same start block. */
  ghost function Run(ledger: Ledger, start: nat, ends: seq<int>): State {
    if ends == [] then INITIAL
    else GetStores(Run(ledger, start, ends[..|ends| - 1]), ledger, start, ends[|ends| - 1])
  }

  ghost function Highest(ends: seq<int>): int
    requires ends != []
  {
    if |ends| == 1 then ends[0]
    else
      var before := Highest(ends[..|ends| - 1]);
      if ends[|ends| - 1] > before then ends[|ends| - 1] else before
  }

  /** One recomputation over everything between the start block and `end`. */
  ghost function Recomputed(ledger: Ledger, start: nat, end: int): seq<Store> {
    GetStores(INITIAL, ledger, start, end).stores
  }

  ghost predicate Updated(ledger: Ledger, id: string, from: int, to: int) {
    exists e :: e in ledger && UpdatesIn(e, from, to) && e.store == id
  }

  predicate UpdatesIn(e: Event, from: int, to: int) {
    e.StoreUpdated? && from <= e.block && e.block <= to
  }

  predicate ChargesIn(e: Event, from: int, to: int) {
    e.DataStored? && from <= e.block && e.block <= to
  }

  /** No store pays a fee before the first update that makes it known. */
  ghost predicate KnownBeforeCharged(ledger: Ledger, start: nat, end: int) {
    forall e :: e in ledger && ChargesIn(e, start, end) && e.fees > 0 ==>
      Updated(ledger, e.store, start, e.block) || !Updated(ledger, e.store, start, end)
  }

  /** What the events from `from` to `to` leave of a store: every update adds its amount, every storing takes its fees. */
  ghost function Balance(ledger: Ledger, id: string, from: int, to: int): int {
    if ledger == [] then 0
    else
      Balance(ledger[..|ledger| - 1], id, from, to) +
      match ledger[|ledger| - 1]
      case StoreUpdated(block, store, amount) => if store == id && from <= block <= to then amount else 0
      case DataStored(block, store, fees) => if store == id && from <= block <= to then 0 - fees else 0
  }

  /** The stores in the order of their first updates from `from` to `to`. */
  ghost function FirstUpdated(ledger: Ledger, from: int, to: int): seq<string> {
    if ledger == [] then []
    else
      var (before, e) := (FirstUpdated(ledger[..|ledger| - 1], from, to), ledger[|ledger| - 1]);
      if UpdatesIn(e, from, to) && e.store !in before then before + [e.store] else before
  }

  /** The list says what the events from `start` to `upTo` say. */
  ghost predicate Represents(stores: seq<Store>, ledger: Ledger, start: nat, upTo: int) {
    && Ids(stores) == FirstUpdated(ledger, start, upTo)
    && Distinct(Ids(stores))
    && forall id :: id in Ids(stores) ==> Amount(stores, id) == Balance(ledger, id, start, upTo)
  }

  lemma SumNext(changes: seq<Change>, c: Change, id: string)
    ensures Sum(changes + [c], id) == Sum(changes, id) + if c.store == id then c.amount else 0
  {
    assert (changes + [c])[..|changes|] == changes;
  }

  lemma FirstSeenNext(changes: seq<Change>, c: Change)
    ensures FirstSeen([], changes + [c]) ==
            if c.store in FirstSeen([], changes) then FirstSeen([], changes) else FirstSeen([], changes) + [c.store]
  {
    assert (changes + [c])[..|changes|] == changes;
  }

  lemma QueryNext(ledger: Ledger, fees: bool, from: int, to: int)
    requires ledger != []
    ensures var (earlier, e) := (QueryFilter(ledger[..|ledger| - 1], fees, from, to), ledger[|ledger| - 1]);
            QueryFilter(ledger, fees, from, to) == if Selected(e, fees, from, to) then earlier + [ChangeOf(e)] else earlier
  {
  }

  lemma {:induction false} QueriesSayBalance(ledger: Ledger, from: int, to: int, id: string)
    ensures Sum(QueryFilter(ledger, false, from, to), id) - Sum(QueryFilter(ledger, true, from, to), id) ==
            Balance(ledger, id, from, to)
  {
    if ledger != [] {
      var (earlier, e) := (ledger[..|ledger| - 1], ledger[|ledger| - 1]);
      QueriesSayBalance(earlier, from, to, id);
      QueryNext(ledger, false, from, to);
      QueryNext(ledger, true, from, to);
      if e.StoreUpdated? {
        SumNext(QueryFilter(earlier, false, from, to), ChangeOf(e), id);
      } else {
        SumNext(QueryFilter(earlier, true, from, to), ChangeOf(e), id);
      }
    }
  }

  lemma {:induction false} QueriesSayIds(ledger: Ledger, from: int, to: int)
    ensures FirstSeen([], QueryFilter(ledger, false, from, to)) == FirstUpdated(ledger, from, to)
  {
    if ledger != [] {
      var (earlier, e) := (ledger[..|ledger| - 1], ledger[|ledger| - 1]);
      QueriesSayIds(earlier, from, to);
      QueryNext(ledger, false, from, to);
      FirstSeenNext(QueryFilter(earlier, false, from, to), ChangeOf(e));
    }
  }

  lemma {:induction false} NoSum(changes: seq<Change>, id: string)
    requires forall c :: c in changes && c.store == id ==> c.amount == 0
    ensures Sum(changes, id) == 0
  {
    if changes != [] {
      NoSum(changes[..|changes| - 1], id);
    }
  }

  lemma IdsAreUpdated(ledger: Ledger, start: nat, upTo: int, id: string)
    ensures id in FirstSeen([], QueryFilter(ledger, false, start, upTo)) <==> Updated(ledger, id, start, upTo)
  {
    var updates := QueryFilter(ledger, false, start, upTo);
    FirstSeenHas([], updates, id);
    if c :| c in updates && c.store == id {
      QueryFilterHas(ledger, false, start, upTo, c);
    }
    if e :| e in ledger && UpdatesIn(e, start, upTo) && e.store == id {
      QueryFilterHas(ledger, false, start, upTo, ChangeOf(e));
    }
  }

  lemma UpdatedLater(ledger: Ledger, id: string, start: int, to: int, later: int)
    requires to <= later
    ensures Updated(ledger, id, start, to) ==> Updated(ledger, id, start, later)
  {
    if e :| e in ledger && UpdatesIn(e, start, to) && e.store == id {
      assert UpdatesIn(e, start, later);
    }
  }

  /** Fees that an earlier call dropped were zero, when no store is charged before it is known. */
  lemma DroppedFeesAreZero(ledger: Ledger, start: nat, mid: int, end: int, id: string)
    requires KnownBeforeCharged(ledger, start, end) && mid <= end
    requires Updated(ledger, id, start, end) && !Updated(ledger, id, start, mid)
    ensures Sum(QueryFilter(ledger, true, start, mid), id) == 0
  {
    var fees := QueryFilter(ledger, true, start, mid);
    forall c | c in fees && c.store == id ensures c.amount == 0 {
      QueryFilterHas(ledger, true, start, mid, c);
      var e :| e in ledger && Selected(e, true, start, mid) && ChangeOf(e) == c;
      assert ChargesIn(e, start, end);
      UpdatedLater(ledger, id, start, e.block, mid);
    }
    NoSum(fees, id);
  }

  /** The amount of one store after one call for the blocks from `from`. */
  lemma AmountAfter(s: State, ledger: Ledger, start: nat, from: int, to: int, id: string)
    requires Distinct(Ids(s.stores)) && from <= to
    requires from == if s.fromBlockNumber < start then start else s.fromBlockNumber
    ensures GetStores(s, ledger, start, to).fromBlockNumber == to + 1
    ensures Ids(GetStores(s, ledger, start, to).stores) == FirstSeen(Ids(s.stores), QueryFilter(ledger, false, from, to))
    ensures Distinct(Ids(GetStores(s, ledger, start, to).stores))
    ensures Amount(GetStores(s, ledger, start, to).stores, id) ==
            Amount(s.stores, id) + Sum(QueryFilter(ledger, false, from, to), id) -
            if id in FirstSeen(Ids(s.stores), QueryFilter(ledger, false, from, to))
            then Sum(QueryFilter(ledger, true, from, to), id) else 0
  {
    var updates := QueryFilter(ledger, false, from, to);
    AddAllMeans(s.stores, updates, id);
    SubAllMeans(AddAll(s.stores, updates), QueryFilter(ledger, true, from, to), id);
  }

  /** Of a store that an earlier call did not know there is nothing to catch up on. */
  lemma UnknownHasNothing(ledger: Ledger, start: nat, mid: int, end: int, id: string)
    requires KnownBeforeCharged(ledger, start, end) && mid <= end
    requires Updated(ledger, id, start, end) && !Updated(ledger, id, start, mid)
    ensures Balance(ledger, id, start, mid) == 0
  {
    var updates := QueryFilter(ledger, false, start, mid);
    DroppedFeesAreZero(ledger, start, mid, end, id);
    IdsAreUpdated(ledger, start, mid, id);
    FirstSeenHas([], updates, id);
    NoSum(updates, id);
    QueriesSayBalance(ledger, start, mid, id);
  }

  lemma BalancesJoin(ledger: Ledger, start: nat, mid: int, to: int, id: string)
    requires InBlockOrder(ledger) && start <= mid + 1 && mid <= to
    ensures Balance(ledger, id, start, to) == Balance(ledger, id, start, mid) +
            Sum(QueryFilter(ledger, false, mid + 1, to), id) - Sum(QueryFilter(ledger, true, mid + 1, to), id)
  {
    forall fees: bool
      ensures Sum(QueryFilter(ledger, fees, start, to), id) ==
              Sum(QueryFilter(ledger, fees, start, mid), id) + Sum(QueryFilter(ledger, fees, mid + 1, to), id)
    {
      RangesJoin(ledger, fees, start, mid, to);
      SumJoins(QueryFilter(ledger, fees, start, mid), QueryFilter(ledger, fees, mid + 1, to), id);
    }
    QueriesSayBalance(ledger, start, mid, id);
    QueriesSayBalance(ledger, start, to, id);
  }

  lemma CallIds(ledger: Ledger, start: nat, stores: seq<Store>, mid: int, to: int)
    requires InBlockOrder(ledger) && start - 1 <= mid < to && Represents(stores, ledger, start, mid)
    ensures var after := GetStores(State(mid + 1, stores), ledger, start, to).stores;
            Ids(after) == FirstUpdated(ledger, start, to) && Distinct(Ids(after))
  {
    RangesJoin(ledger, false, start, mid, to);
    FirstSeenJoins([], QueryFilter(ledger, false, start, mid), QueryFilter(ledger, false, mid + 1, to));
    QueriesSayIds(ledger, start, mid);
    QueriesSayIds(ledger, start, to);
    AmountAfter(State(mid + 1, stores), ledger, start, mid + 1, to, "");
  }

  lemma CallAmount(ledger: Ledger, start: nat, stores: seq<Store>, mid: int, to: int, end: int, id: string)
    requires InBlockOrder(ledger) && KnownBeforeCharged(ledger, start, end)
    requires start - 1 <= mid < to <= end && Represents(stores, ledger, start, mid)
    requires id in FirstUpdated(ledger, start, to)
    ensures Amount(GetStores(State(mid + 1, stores), ledger, start, to).stores, id) == Balance(ledger, id, start, to)
  {
    AmountAfter(State(mid + 1, stores), ledger, start, mid + 1, to, id);
    CallIds(ledger, start, stores, mid, to);
    BalancesJoin(ledger, start, mid, to, id);
    InIds(stores, id);
    if id !in Ids(stores) {
      QueriesSayIds(ledger, start, mid);
      QueriesSayIds(ledger, start, to);
      IdsAreUpdated(ledger, start, mid, id);
      IdsAreUpdated(ledger, start, to, id);
      UpdatedLater(ledger, id, start, to, end);
      UnknownHasNothing(ledger, start, mid, end, id);
    }
  }

  /** One more call keeps the list in step with the ledger. */
  lemma CallKeeps(ledger: Ledger, start: nat, stores: seq<Store>, mid: int, to: int, end: int)
    requires InBlockOrder(ledger) && KnownBeforeCharged(ledger, start, end)
    requires start - 1 <= mid < to <= end
    requires Represents(stores, ledger, start, mid)
    ensures Represents(GetStores(State(mid + 1, stores), ledger, start, to).stores, ledger, start, to)
  {
    CallIds(ledger, start, stores, mid, to);
    forall id | id in FirstUpdated(ledger, start, to)
      ensures Amount(GetStores(State(mid + 1, stores), ledger, start, to).stores, id) == Balance(ledger, id, start, to)
    {
      CallAmount(ledger, start, stores, mid, to, end, id);
    }
  }

  /** The last block the calls have covered. */
  ghost function CoveredTo(start: nat, ends: seq<int>): (upTo: int)
    ensures upTo >= start - 1
  {
    if ends == [] then start - 1
    else
      var before := CoveredTo(start, ends[..|ends| - 1]);
      if ends[|ends| - 1] > before then ends[|ends| - 1] else before
  }

  /** The manager has taken in exactly the blocks from `start` to `upTo`. */
  ghost predicate InStep(s: State, ledger: Ledger, start: nat, upTo: int) {
    && (if s.fromBlockNumber < start then start else s.fromBlockNumber) == upTo + 1
    && Represents(s.stores, ledger, start, upTo)
  }

  lemma InitiallyInStep(ledger: Ledger, start: nat)
    ensures InStep(INITIAL, ledger, start, start - 1)
  {
    NothingSelected(ledger, false, start, start - 1);
    NothingSelected(ledger, true, start, start - 1);
    QueriesSayIds(ledger, start, start - 1);
  }

  lemma {:induction false} RunInStep(ledger: Ledger, start: nat, ends: seq<int>, end: int)
    requires InBlockOrder(ledger) && KnownBeforeCharged(ledger, start, end)
    requires CoveredTo(start, ends) <= end || CoveredTo(start, ends) == start - 1
    ensures InStep(Run(ledger, start, ends), ledger, start, CoveredTo(start, ends))
  {
    if ends == [] {
      InitiallyInStep(ledger, start);
    } else {
      var n := |ends| - 1;
      RunInStep(ledger, start, ends[..n], end);
      var before, upTo := Run(ledger, start, ends[..n]), CoveredTo(start, ends[..n]);
      if upTo < ends[n] {
        CallKeeps(ledger, start, before.stores, upTo, ends[n], end);
        assert GetStores(before, ledger, start, ends[n]) == GetStores(State(upTo + 1, before.stores), ledger, start, ends[n]);
      }
    }
  }

  lemma {:induction false} CoveredIsHighest(start: nat, ends: seq<int>)
    requires ends != []
    ensures CoveredTo(start, ends) == if Highest(ends) < start then start - 1 else Highest(ends)
  {
    if |ends| > 1 {
      CoveredIsHighest(start, ends[..|ends| - 1]);
    } else {
      assert ends[..0] == [];
    }
  }

  /** Where no store is charged before it is known, every sequence of calls ends with the recomputed list. */
  lemma CallsAgree(ledger: Ledger, start: nat, ends: seq<int>)
    requires InBlockOrder(ledger) && ends != []
    requires KnownBeforeCharged(ledger, start, Highest(ends))
    ensures Run(ledger, start, ends).stores == Recomputed(ledger, start, Highest(ends))
    ensures Represents(Run(ledger, start, ends).stores, ledger, start, Highest(ends))
  {
    var end := Highest(ends);
    CoveredIsHighest(start, ends);
    CoveredIsHighest(start, [end]);
    RunInStep(ledger, start, ends, end);
    RunInStep(ledger, start, [end], end);
    assert [end][..0] == [] && Run(ledger, start, []) == INITIAL;
    SameList(Run(ledger, start, ends).stores, Run(ledger, start, [end]).stores);
    RecomputedRepresents(ledger, start, end);
  }

  /** One recomputation says what the events say, whether or not a store is charged before it is known. */
  lemma RecomputedRepresents(ledger: Ledger, start: nat, end: int)
    ensures Represents(Recomputed(ledger, start, end), ledger, start, end)
  {
    QueriesSayIds(ledger, start, end);
    if start > end {
      NothingSelected(ledger, false, start, end);
    } else {
      assert Ids([]) == [];
      AmountAfter(INITIAL, ledger, start, start, end, "");
      forall id | id in FirstUpdated(ledger, start, end)
        ensures Amount(Recomputed(ledger, start, end), id) == Balance(ledger, id, start, end)
      {
        AmountAfter(INITIAL, ledger, start, start, end, id);
        QueriesSayBalance(ledger, start, end, id);
      }
    }
  }

  ghost predicate EverySplitAgrees(ledger: Ledger, start: nat, end: int) {
    forall ends :: ends != [] && Highest(ends) == end ==>
      Run(ledger, start, ends).stores == Recomputed(ledger, start, end)
  }

  lemma FeesNext(ledger: Ledger, start: int, upTo: int, id: string)
    requires ledger != []
    ensures var last := ledger[|ledger| - 1];
            Sum(QueryFilter(ledger, true, start, upTo), id) ==
            Sum(QueryFilter(ledger[..|ledger| - 1], true, start, upTo), id) +
            if Selected(last, true, start, upTo) && last.store == id then last.fees else 0
  {
    var last := ledger[|ledger| - 1];
    var tail := if Selected(last, true, start, upTo) then [ChangeOf(last)] else [];
    SumJoins(QueryFilter(ledger[..|ledger| - 1], true, start, upTo), tail, id);
    assert Sum([], id) == 0;
    assert tail != [] ==> tail[..0] == [];
  }

  lemma {:induction false} FeesNonNegative(ledger: Ledger, start: int, upTo: int, id: string)
    ensures Sum(QueryFilter(ledger, true, start, upTo), id) >= 0
  {
    if ledger != [] {
      FeesNext(ledger, start, upTo, id);
      FeesNonNegative(ledger[..|ledger| - 1], start, upTo, id);
    }
  }

  lemma {:induction false} FeesInclude(ledger: Ledger, start: int, upTo: int, e: Event)
    requires e in ledger && Selected(e, true, start, upTo)
    ensures Sum(QueryFilter(ledger, true, start, upTo), e.store) >= e.fees
  {
    var n := |ledger| - 1;
    FeesNext(ledger, start, upTo, e.store);
    FeesNonNegative(ledger[..n], start, upTo, e.store);
    assert ledger == ledger[..n] + [ledger[n]];
    if ledger[n] != e {
      FeesInclude(ledger[..n], start, upTo, e);
    }
  }

  lemma RunOfTwo(ledger: Ledger, start: nat, a: int, b: int)
    ensures Run(ledger, start, [a, b]) == GetStores(GetStores(INITIAL, ledger, start, a), ledger, start, b)
    ensures Highest([a, b]) == if b > a then b else a
  {
    assert [a, b][..1] == [a] && [a][..0] == [];
    assert Run(ledger, start, []) == INITIAL;
    assert Run(ledger, start, [a]) == GetStores(INITIAL, ledger, start, a);
  }

  /** Splitting the range right after a fee that comes too early loses that fee. */
  lemma EarlyFeeIsLost(ledger: Ledger, start: nat, end: int, e: Event)
    requires InBlockOrder(ledger) && e in ledger && ChargesIn(e, start, end) && e.fees > 0
    requires !Updated(ledger, e.store, start, e.block) && Updated(ledger, e.store, start, end)
    ensures Highest([e.block, end]) == end
    ensures Run(ledger, start, [e.block, end]).stores != Recomputed(ledger, start, end)
  {
    var id, mid: int := e.store, e.block;
    assert mid != end;
    RunOfTwo(ledger, start, mid, end);
    EarlyFeeAmounts(ledger, start, mid, end, id);
    FeesInclude(ledger, start, mid, e);
  }

  /** A store first updated after `mid`: the two calls and the recomputation differ by the fees up to `mid`. */
  lemma EarlyFeeAmounts(ledger: Ledger, start: nat, mid: int, end: int, id: string)
    requires InBlockOrder(ledger) && start <= mid < end
    requires !Updated(ledger, id, start, mid) && Updated(ledger, id, start, end)
    ensures Amount(GetStores(GetStores(INITIAL, ledger, start, mid), ledger, start, end).stores, id) ==
            Amount(Recomputed(ledger, start, end), id) + Sum(QueryFilter(ledger, true, start, mid), id)
  {
    var first := GetStores(INITIAL, ledger, start, mid);
    assert Ids([]) == [];
    AmountAfter(INITIAL, ledger, start, start, mid, id);
    IdsAreUpdated(ledger, start, mid, id);
    InIds(first.stores, id);
    AmountAfter(first, ledger, start, mid + 1, end, id);
    AmountAfter(INITIAL, ledger, start, start, end, id);
    IdsAreUpdated(ledger, start, end, id);
    InOrder(ledger, start, mid, end, id);
  }

  lemma InOrder(ledger: Ledger, start: nat, mid: int, end: int, id: string)
    requires InBlockOrder(ledger) && start <= mid < end
    ensures FirstSeen([], QueryFilter(ledger, false, start, end)) ==
            FirstSeen(FirstSeen([], QueryFilter(ledger, false, start, mid)), QueryFilter(ledger, false, mid + 1, end))
    ensures forall fees :: Sum(QueryFilter(ledger, fees, start, end), id) ==
              Sum(QueryFilter(ledger, fees, start, mid), id) + Sum(QueryFilter(ledger, fees, mid + 1, end), id)
  {
    forall fees: bool
      ensures Sum(QueryFilter(ledger, fees, start, end), id) ==
              Sum(QueryFilter(ledger, fees, start, mid), id) + Sum(QueryFilter(ledger, fees, mid + 1, end), id)
    {
      RangesJoin(ledger, fees, start, mid, end);
      SumJoins(QueryFilter(ledger, fees, start, mid), QueryFilter(ledger, fees, mid + 1, end), id);
    }
    RangesJoin(ledger, false, start, mid, end);
    FirstSeenJoins([], QueryFilter(ledger, false, start, mid), QueryFilter(ledger, false, mid + 1, end));
  }

  /** However the range is split, the calls agree with one recomputation exactly when no store is charged before it is known. */
  lemma SplitsAgreeIffKnownBeforeCharged(ledger: Ledger, start: nat, end: int)
    requires InBlockOrder(ledger)
    ensures EverySplitAgrees(ledger, start, end) <==> KnownBeforeCharged(ledger, start, end)
  {
    if KnownBeforeCharged(ledger, start, end) {
      forall ends | ends != [] && Highest(ends) == end
        ensures Run(ledger, start, ends).stores == Recomputed(ledger, start, end)
      {
        CallsAgree(ledger, start, ends);
      }
    } else {
      var e :| e in ledger && ChargesIn(e, start, end) && e.fees > 0
        && !Updated(ledger, e.store, start, e.block) && Updated(ledger, e.store, start, end);
      EarlyFeeIsLost(ledger, start, end, e);
    }
  }
}
