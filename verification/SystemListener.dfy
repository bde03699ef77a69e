/** The validator's store of system messages, filled by live and by recovered deliveries. */
module SystemListener {
  import opened Prelude
  import opened Json
  import S = SystemMessage

  datatype Kind = QueryRequest | QueryResponse | QueryPropagate | Other

  function KindOf(m: S.Message): Kind {
    match m
    case QueryRequest(_, _, _, _, _, _, _) => QueryRequest
    case QueryResponse(_, _, _, _, _) => QueryResponse
    case QueryPropagate(_, _, _, _, _) => QueryPropagate
    case _ => Other
  }

  /** One delivery of a system message; `extra` is the metadata beyond the seven fields that are hashed. */
  datatype Delivery = Delivery(message: S.Message, metadata: S.Metadata, extra: string, hash: string) {
    function Kind(): Kind {
      KindOf(message)
    }
  }

  /** What the hashed text shows of a message: `JSON.stringify` writes a `Map` as an empty object. */
  function Shown(m: S.Message): S.Message {
    if m.QueryResponse? then m.(hashMap := []) else m
  }

  function HashMapOf(m: S.Message): seq<(Text, Text)> {
    if m.QueryResponse? then m.hashMap else []
  }

  /** The hashed part of a delivery. */
  datatype Body = Body(shown: S.Message, metadata: S.Metadata)

  function BodyOf(message: S.Message, metadata: S.Metadata): Body {
    Body(Shown(message), metadata)
  }

  datatype Key = AtTime(timestamp: SafeInt) | ForRequest(requestId: Text)

  datatype Entry = Entry(hash: string, message: S.Message, metadata: S.Metadata, extra: string)

  type Database = map<Key, seq<Entry>>

  /** Requests are filed under their timestamp, responses and propagates under their request. */
  function KeyOf(d: Delivery): Key {
    match d.message
    case QueryResponse(_, _, requestId, _, _) => ForRequest(requestId)
    case QueryPropagate(_, _, requestId, _, _) => ForRequest(requestId)
    case _ => AtTime(d.metadata.timestamp)
  }

  function EntryOf(d: Delivery): Entry {
    Entry(d.hash, d.message, d.metadata, d.extra)
  }

  function Get(db: Database, key: Key): seq<Entry> {
    if key in db then db[key] else []
  }

  predicate HasHash(entries: seq<Entry>, hash: string) {
    exists e :: e in entries && e.hash == hash
  }

  /** One transaction: nothing happens when the hash is already filed under the key. */
  function Put(db: Database, d: Delivery): Database {
    var entries := Get(db, KeyOf(d));
    if HasHash(entries, d.hash) then db else db[KeyOf(d) := entries + [EntryOf(d)]]
  }

  class SystemStore {
    var requests: Database
    var responses: Database
    var propagates: Database
    var latestTimestamp: Option<SafeInt>

    constructor ()
      ensures requests == map[] && responses == map[] && propagates == map[] && latestTimestamp == None
    {
      requests, responses, propagates, latestTimestamp := map[], map[], map[], None;
    }

    /** The scan for the hash, then the write of the longer list. */
    method Transact(db: Database, d: Delivery) returns (r: Database)
      ensures r == Put(db, d)
    {
      var messages := Get(db, KeyOf(d));
      for i := 0 to |messages|
        invariant forall j :: 0 <= j < i ==> messages[j].hash != d.hash
      {
        if messages[i].hash == d.hash {
          return db;
        }
      }
      return db[KeyOf(d) := messages + [EntryOf(d)]];
    }

    /** Handles a message whichever way it arrived; only the database of its kind can change. */
    method OnSystemMessage(d: Delivery)
      modifies this
      ensures requests == if d.message.QueryRequest? then Put(old(requests), d) else old(requests)
      ensures responses == if d.message.QueryResponse? then Put(old(responses), d) else old(responses)
      ensures propagates == if d.message.QueryPropagate? then Put(old(propagates), d) else old(propagates)
      ensures latestTimestamp == old(latestTimestamp)
    {
      match d.Kind()
      case QueryRequest => requests := Transact(requests, d);
      case QueryResponse => responses := Transact(responses, d);
      case QueryPropagate => propagates := Transact(propagates, d);
      case Other =>
    }

    /** A live message also moves the latest timestamp; messages of other kinds are not listened to. */
    method OnMessage(d: Delivery)
      modifies this
      ensures requests == if d.message.QueryRequest? then Put(old(requests), d) else old(requests)
      ensures responses == if d.message.QueryResponse? then Put(old(responses), d) else old(responses)
      ensures propagates == if d.message.QueryPropagate? then Put(old(propagates), d) else old(propagates)
      ensures latestTimestamp ==
              if d.message.QueryRequest? || d.message.QueryResponse? || d.message.QueryPropagate?
              then Some(d.metadata.timestamp) else old(latestTimestamp)
    {
      if d.Kind() == Other {
        return;
      }
      latestTimestamp := Some(d.metadata.timestamp);
      OnSystemMessage(d);
    }
  }

  // ----- Any interleaving of live and recovered deliveries -----

  /** The database of one kind after the given deliveries, in order. */
  ghost function Stored(kind: Kind, deliveries: seq<Delivery>): Database {
    if deliveries == [] then map[]
    else
      var d := deliveries[|deliveries| - 1];
      var db := Stored(kind, deliveries[..|deliveries| - 1]);
      if d.Kind() == kind then Put(db, d) else db
  }

  ghost predicate Filed(d: Delivery, kind: Kind, key: Key) {
    d.Kind() == kind && KeyOf(d) == key
  }

  lemma StoredNext(kind: Kind, deliveries: seq<Delivery>, key: Key)
    requires deliveries != []
    ensures var last := deliveries[|deliveries| - 1];
            var before := Get(Stored(kind, deliveries[..|deliveries| - 1]), key);
            Get(Stored(kind, deliveries), key) ==
            if Filed(last, kind, key) && !HasHash(before, last.hash) then before + [EntryOf(last)] else before
  {
  }

  lemma {:induction false} StoredHashes(kind: Kind, deliveries: seq<Delivery>, key: Key, hash: string)
    ensures HasHash(Get(Stored(kind, deliveries), key), hash) <==>
            exists d :: d in deliveries && Filed(d, kind, key) && d.hash == hash
  {
    if deliveries != [] {
      var n := |deliveries| - 1;
      var last := deliveries[n];
      StoredHashes(kind, deliveries[..n], key, hash);
      StoredNext(kind, deliveries, key);
      assert deliveries == deliveries[..n] + [last];
      var before := Get(Stored(kind, deliveries[..n]), key);
      if Filed(last, kind, key) && !HasHash(before, last.hash) {
        var after := before + [EntryOf(last)];
        assert forall e :: e in after <==> e in before || e == EntryOf(last);
      }
    }
  }

  lemma {:induction false} StoredSources(kind: Kind, deliveries: seq<Delivery>, key: Key, e: Entry)
    requires e in Get(Stored(kind, deliveries), key)
    ensures exists d :: d in deliveries && Filed(d, kind, key) && EntryOf(d) == e
  {
    if deliveries != [] {
      var n := |deliveries| - 1;
      StoredNext(kind, deliveries, key);
      assert deliveries == deliveries[..n] + [deliveries[n]];
      if e in Get(Stored(kind, deliveries[..n]), key) {
        StoredSources(kind, deliveries[..n], key, e);
      }
    }
  }

  ghost predicate DistinctHashes(entries: seq<Entry>) {
    forall i, j :: 0 <= i < j < |entries| ==> entries[i].hash != entries[j].hash
  }

  lemma {:induction false} StoredDistinct(kind: Kind, deliveries: seq<Delivery>, key: Key)
    ensures DistinctHashes(Get(Stored(kind, deliveries), key))
  {
    if deliveries != [] {
      StoredDistinct(kind, deliveries[..|deliveries| - 1], key);
      StoredNext(kind, deliveries, key);
    }
  }

  /** Under each key there is exactly one entry for every distinct hash delivered for that key. */
  lemma OneEntryPerHash(kind: Kind, deliveries: seq<Delivery>, key: Key)
    ensures DistinctHashes(Get(Stored(kind, deliveries), key))
    ensures forall hash :: HasHash(Get(Stored(kind, deliveries), key), hash) <==>
                           exists d :: d in deliveries && Filed(d, kind, key) && d.hash == hash
    ensures forall e :: e in Get(Stored(kind, deliveries), key) ==>
              exists d :: d in deliveries && Filed(d, kind, key) && EntryOf(d) == e
  {
    StoredDistinct(kind, deliveries, key);
    forall hash ensures HasHash(Get(Stored(kind, deliveries), key), hash) <==>
                        exists d :: d in deliveries && Filed(d, kind, key) && d.hash == hash {
      StoredHashes(kind, deliveries, key, hash);
    }
    forall e | e in Get(Stored(kind, deliveries), key)
      ensures exists d :: d in deliveries && Filed(d, kind, key) && EntryOf(d) == e
    {
      StoredSources(kind, deliveries, key, e);
    }
  }

  /** Requests are found under their time, responses and propagates under the request they belong to. */
  lemma FoundByFields(deliveries: seq<Delivery>, timestamp: SafeInt, requestId: Text, hash: string)
    ensures HasHash(Get(Stored(QueryRequest, deliveries), AtTime(timestamp)), hash) <==>
            exists d :: d in deliveries && d.message.QueryRequest? && d.metadata.timestamp == timestamp && d.hash == hash
    ensures HasHash(Get(Stored(QueryResponse, deliveries), ForRequest(requestId)), hash) <==>
            exists d :: d in deliveries && d.message.QueryResponse? && d.message.requestId == requestId && d.hash == hash
    ensures HasHash(Get(Stored(QueryPropagate, deliveries), ForRequest(requestId)), hash) <==>
            exists d :: d in deliveries && d.message.QueryPropagate? && d.message.requestId == requestId && d.hash == hash
  {
    StoredHashes(QueryRequest, deliveries, AtTime(timestamp), hash);
    StoredHashes(QueryResponse, deliveries, ForRequest(requestId), hash);
    StoredHashes(QueryPropagate, deliveries, ForRequest(requestId), hash);
  }

  /** Equal hashes stand for equal hashed parts, as a collision-free hash promises; a response's hash map is no such part. */
  ghost predicate HashIdentifiesBody(deliveries: seq<Delivery>) {
    forall a, b :: a in deliveries && b in deliveries && a.hash == b.hash ==> BodyOf(a.message, a.metadata) == BodyOf(b.message, b.metadata)
  }

  ghost function Hashes(entries: seq<Entry>): set<string> {
    set e | e in entries :: e.hash
  }

  ghost function Bodies(entries: seq<Entry>): set<(string, Body)> {
    set e | e in entries :: (e.hash, BodyOf(e.message, e.metadata))
  }

  lemma BodiesAre(kind: Kind, deliveries: seq<Delivery>, key: Key, hash: string, body: Body)
    requires HashIdentifiesBody(deliveries)
    ensures (hash, body) in Bodies(Get(Stored(kind, deliveries), key)) <==>
            exists d :: d in deliveries && Filed(d, kind, key) && d.hash == hash && BodyOf(d.message, d.metadata) == body
  {
    OneEntryPerHash(kind, deliveries, key);
    var entries := Get(Stored(kind, deliveries), key);
    if d :| d in deliveries && Filed(d, kind, key) && d.hash == hash && BodyOf(d.message, d.metadata) == body {
      assert HasHash(entries, hash);
      var e :| e in entries && e.hash == hash;
      var source :| source in deliveries && Filed(source, kind, key) && EntryOf(source) == e;
      assert (e.hash, BodyOf(e.message, e.metadata)) == (hash, body);
    }
  }

  lemma HashesAre(kind: Kind, deliveries: seq<Delivery>, key: Key, hash: string)
    ensures hash in Hashes(Get(Stored(kind, deliveries), key)) <==>
            exists d :: d in deliveries && Filed(d, kind, key) && d.hash == hash
  {
    OneEntryPerHash(kind, deliveries, key);
    var entries := Get(Stored(kind, deliveries), key);
    assert hash in Hashes(entries) <==> HasHash(entries, hash);
  }

  /** The same deliveries in any order, with any repeats, are stored as the same hashes and the same hashed parts. */
  lemma ArrivalOrderIrrelevant(kind: Kind, first: seq<Delivery>, second: seq<Delivery>, key: Key)
    requires forall d :: d in first <==> d in second
    ensures Hashes(Get(Stored(kind, first), key)) == Hashes(Get(Stored(kind, second), key))
    ensures |Get(Stored(kind, first), key)| == |Get(Stored(kind, second), key)|
    ensures HashIdentifiesBody(first) ==> Bodies(Get(Stored(kind, first), key)) == Bodies(Get(Stored(kind, second), key))
  {
    forall hash ensures hash in Hashes(Get(Stored(kind, first), key)) <==> hash in Hashes(Get(Stored(kind, second), key)) {
      HashesAre(kind, first, key, hash);
      HashesAre(kind, second, key, hash);
    }
    OneEntryPerHash(kind, first, key);
    OneEntryPerHash(kind, second, key);
    DistinctHashesCount(Get(Stored(kind, first), key));
    DistinctHashesCount(Get(Stored(kind, second), key));
    if HashIdentifiesBody(first) {
      assert HashIdentifiesBody(second);
      forall p ensures p in Bodies(Get(Stored(kind, first), key)) <==> p in Bodies(Get(Stored(kind, second), key)) {
        BodiesAre(kind, first, key, p.0, p.1);
        BodiesAre(kind, second, key, p.0, p.1);
      }
    }
  }

  lemma {:induction false} DistinctHashesCount(entries: seq<Entry>)
    requires DistinctHashes(entries)
    ensures |Hashes(entries)| == |entries|
  {
    if entries != [] {
      var n := |entries| - 1;
      DistinctHashesCount(entries[..n]);
      assert entries == entries[..n] + [entries[n]];
      assert Hashes(entries) == Hashes(entries[..n]) + {entries[n].hash};
      assert entries[n].hash !in Hashes(entries[..n]);
    }
  }

  /**
   What is outside the hash is kept from the first arrival only. Two deliveries with one hash are stored alike in
   both orders exactly when they are the same; with equal hashed parts, exactly when hash map and extra metadata agree.
   */
  lemma OutsideTheHashDependsOnOrder(kind: Kind, a: Delivery, b: Delivery)
    requires kind != Other && Filed(a, kind, KeyOf(a)) && Filed(b, kind, KeyOf(a)) && a.hash == b.hash
    ensures Stored(kind, [a, b])[KeyOf(a)] == Stored(kind, [b, a])[KeyOf(a)] <==> a == b
    ensures BodyOf(a.message, a.metadata) == BodyOf(b.message, b.metadata) ==>
              (Stored(kind, [a, b])[KeyOf(a)] == Stored(kind, [b, a])[KeyOf(a)] <==>
               HashMapOf(a.message) == HashMapOf(b.message) && a.extra == b.extra)
  {
    StoredPair(kind, a, b);
    StoredPair(kind, b, a);
    if Stored(kind, [a, b])[KeyOf(a)] == Stored(kind, [b, a])[KeyOf(a)] {
      assert [EntryOf(a)][0] == [EntryOf(b)][0];
    }
  }

  lemma StoredPair(kind: Kind, a: Delivery, b: Delivery)
    requires kind != Other && Filed(a, kind, KeyOf(a)) && Filed(b, kind, KeyOf(a)) && a.hash == b.hash
    ensures KeyOf(a) in Stored(kind, [a, b]) && Stored(kind, [a, b])[KeyOf(a)] == [EntryOf(a)]
  {
    assert [a, b][..1] == [a] && [a][..0] == [];
    assert Stored(kind, []) == map[];
    StoredNext(kind, [a], KeyOf(a));
    StoredNext(kind, [a, b], KeyOf(a));
    assert Get(Stored(kind, [a]), KeyOf(a)) == [EntryOf(a)];
    assert EntryOf(a) in [EntryOf(a)] && HasHash([EntryOf(a)], b.hash);
  }
}
