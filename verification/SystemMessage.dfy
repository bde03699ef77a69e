/** System messages and their version 1 wire format: arrays of fields, with messages nested as strings. */
module SystemMessage {
  import opened Prelude
  import opened Json
  import opened Entries

  const LATEST_VERSION := 1

  const LAST: Text := ['l' as int, 'a' as int, 's' as int, 't' as int]
  const FROM: Text := ['f' as int, 'r' as int, 'o' as int, 'm' as int]
  const RANGE: Text := ['r' as int, 'a' as int, 'n' as int, 'g' as int, 'e' as int]

  /** A field that JavaScript may leave `undefined`, and that JSON then shows as `null`. */
  datatype Field<+T> = Undefined | Null | Val(value: T) {
    function OnWire(): Field<T> {
      if Undefined? then Null else this
    }
  }

  datatype Ref = Ref(timestamp: SafeInt, sequenceNumber: Field<SafeInt>)

  /** A query type no serializer branch knows; its options are not carried. */
  type OtherType = t: Text | t !in {LAST, FROM, RANGE} witness []

  datatype Query =
    | Last(last: SafeInt)
    | From(from: Ref, publisherId: Field<Text>, limit: Field<SafeInt>)
    | Range(from: Ref, to: Ref, msgChainId: Field<Text>, publisherId: Field<Text>, limit: Field<SafeInt>)
    | Other(queryType: OtherType)

  datatype Metadata = Metadata(
    streamId: Text, streamPartition: SafeInt, timestamp: SafeInt, sequenceNumber: SafeInt,
    signature: Text, publisherId: Text, msgChainId: Text)

  datatype Recovered = Recovered(content: Message, metadata: Metadata)

  /** `hashMap` is a JavaScript `Map`, as its entries in insertion order. */
  datatype Message =
    | QueryRequest(version: SafeInt, seqNum: SafeInt, requestId: Text, consumerId: Text, streamId: Text,
                   partition: SafeInt, query: Query)
    | QueryResponse(version: SafeInt, seqNum: SafeInt, requestId: Text, requestPublisherId: Text,
                    hashMap: seq<(Text, Text)>)
    | QueryPropagate(version: SafeInt, seqNum: SafeInt, requestId: Text, requestPublisherId: Text,
                     payload: seq<(Text, Text)>)
    | ProofOfReport(version: SafeInt, seqNum: SafeInt, address: Text, hash: Text, toth: Text,
                    timestamp: SafeInt, signature: Text)
    | RecoveryRequest(version: SafeInt, seqNum: SafeInt, requestId: Text, from: SafeInt, to: SafeInt)
    | RecoveryResponse(version: SafeInt, seqNum: SafeInt, requestId: Text, recovered: seq<Recovered>)
    | RecoveryComplete(version: SafeInt, seqNum: SafeInt, requestId: Text, isFulfilled: bool)

  function MessageType(m: Message): SafeInt {
    match m
    case QueryRequest(_, _, _, _, _, _, _) => 1
    case QueryResponse(_, _, _, _, _) => 2
    case QueryPropagate(_, _, _, _, _) => 3
    case ProofOfReport(_, _, _, _, _, _, _) => 4
    case RecoveryRequest(_, _, _, _, _) => 5
    case RecoveryResponse(_, _, _, _) => 6
    case RecoveryComplete(_, _, _, _) => 7
  }

  /** Every message, at any depth, holds real maps. */
  ghost predicate Valid(m: Message)
    decreases m
  {
    && (m.QueryResponse? ==> UniqueKeys(m.hashMap))
    && (m.RecoveryResponse? ==> forall i :: 0 <= i < |m.recovered| ==> Valid(m.recovered[i].content))
  }

  // ----- Writing -----

  function FieldNum(f: Field<SafeInt>): Json {
    if f.Val? then JNum(f.value) else JNull
  }

  function FieldStr(f: Field<Text>): Json {
    if f.Val? then JStr(f.value) else JNull
  }

  function PairsToJson(pairs: seq<(Text, Text)>): (r: seq<Json>)
    ensures |r| == |pairs|
    ensures forall i :: 0 <= i < |r| ==> r[i] == JArr([JStr(pairs[i].0), JStr(pairs[i].1)])
  {
    if pairs == [] then [] else [JArr([JStr(pairs[0].0), JStr(pairs[0].1)])] + PairsToJson(pairs[1..])
  }

  function QueryToArray(q: Query): seq<Json> {
    match q
    case Last(last) => [JStr(LAST), JNum(last)]
    case From(from, publisherId, _) =>
      [JStr(FROM), JNum(from.timestamp), FieldNum(from.sequenceNumber), FieldStr(publisherId)]
    case Range(from, to, msgChainId, publisherId, _) =>
      [JStr(RANGE), JNum(from.timestamp), FieldNum(from.sequenceNumber), JNum(to.timestamp), FieldNum(to.sequenceNumber),
       FieldStr(msgChainId), FieldStr(publisherId)]
    case Other(queryType) => [JStr(queryType)]
  }

  function MetadataToArray(m: Metadata): Json {
    JArr([JStr(m.streamId), JNum(m.streamPartition), JNum(m.timestamp), JNum(m.sequenceNumber), JStr(m.signature),
          JStr(m.publisherId), JStr(m.msgChainId)])
  }

  const UNSUPPORTED_VERSION := "UnsupportedVersionError"
  const UNSUPPORTED_TYPE := "UnsupportedTypeError"

  /** The fields after the version and the type. */
  function ToFields(m: Message): Result<seq<Json>>
    decreases m, 0
  {
    match m
    case QueryRequest(_, seqNum, requestId, consumerId, streamId, partition, query) =>
      Ok([JNum(seqNum), JStr(requestId), JStr(consumerId), JStr(streamId), JNum(partition)] + QueryToArray(query))
    case QueryResponse(_, seqNum, requestId, requestPublisherId, hashMap) =>
      Ok([JNum(seqNum), JStr(requestId), JStr(requestPublisherId), JStr(Stringify(JArr(PairsToJson(hashMap))))])
    case QueryPropagate(_, seqNum, requestId, requestPublisherId, payload) =>
      Ok([JNum(seqNum), JStr(requestId), JStr(requestPublisherId), JArr(PairsToJson(payload))])
    case ProofOfReport(_, seqNum, address, hash, toth, timestamp, signature) =>
      Ok([JNum(seqNum), JStr(address), JStr(hash), JStr(toth), JNum(timestamp), JStr(signature)])
    case RecoveryRequest(_, seqNum, requestId, from, to) =>
      Ok([JNum(seqNum), JStr(requestId), JNum(from), JNum(to)])
    case RecoveryResponse(_, seqNum, requestId, recovered) =>
      var payload :- RecoveredToArray(recovered);
      Ok([JNum(seqNum), JStr(requestId), JArr(payload)])
    case RecoveryComplete(_, seqNum, requestId, isFulfilled) =>
      Ok([JNum(seqNum), JStr(requestId), JBool(isFulfilled)])
  }

  /** The serializer found for the message's own version and type, and the array it builds. */
  function ToArray(m: Message): Result<Json>
    decreases m, 1
  {
    if m.version != LATEST_VERSION then Thrown(UNSUPPORTED_VERSION)
    else
      var fields :- ToFields(m);
      Ok(JArr([JNum(LATEST_VERSION), JNum(MessageType(m))] + fields))
  }

  function RecoveredToArray(recovered: seq<Recovered>): Result<seq<Json>>
    decreases recovered
  {
    if recovered == [] then Ok([])
    else
      var Recovered(content, metadata) := recovered[0];
      assert content < recovered[0];
      var first :- Serialize(content);
      var rest :- RecoveredToArray(recovered[1..]);
      Ok([JArr([JStr(first), MetadataToArray(metadata)])] + rest)
  }

  function Serialize(m: Message): Result<Text>
    decreases m, 2
  {
    var encoded :- ToArray(m);
    Ok(Stringify(encoded))
  }

  lemma QueryTypeTexts()
    ensures LAST == Units("last") && FROM == Units("from") && RANGE == Units("range")
  {
  }

  // ----- Reading -----

  /** The program takes fields of any type; the model stops at an ill-typed one. */
  const ILL_TYPED := "a field of a type the message does not have"

  function StrAt(a: seq<Json>, i: nat): Result<Text> {
    if i < |a| && a[i].JStr? then Ok(a[i].text) else Thrown(ILL_TYPED)
  }

  function NumAt(a: seq<Json>, i: nat): Result<SafeInt> {
    if i < |a| && a[i].JNum? then Ok(a[i].number) else Thrown(ILL_TYPED)
  }

  function BoolAt(a: seq<Json>, i: nat): Result<bool> {
    if i < |a| && a[i].JBool? then Ok(a[i].truth) else Thrown(ILL_TYPED)
  }

  /** A missing element is `undefined`. */
  function OptionalStrAt(a: seq<Json>, i: nat): Result<Field<Text>> {
    if i >= |a| then Ok(Undefined)
    else if a[i].JNull? then Ok(Null)
    else if a[i].JStr? then Ok(Val(a[i].text))
    else Thrown(ILL_TYPED)
  }

  function OptionalNumAt(a: seq<Json>, i: nat): Result<Field<SafeInt>> {
    if i >= |a| then Ok(Undefined)
    else if a[i].JNull? then Ok(Null)
    else if a[i].JNum? then Ok(Val(a[i].number))
    else Thrown(ILL_TYPED)
  }

  function PairsFromJson(items: seq<Json>): Result<seq<(Text, Text)>> {
    if items == [] then Ok([])
    else if !items[0].JArr? then Thrown(ILL_TYPED)
    else
      var key :- StrAt(items[0].items, 0);
      var value :- StrAt(items[0].items, 1);
      var rest :- PairsFromJson(items[1..]);
      Ok([(key, value)] + rest)
  }

  function PairsAt(a: seq<Json>, i: nat): Result<seq<(Text, Text)>> {
    if i < |a| && a[i].JArr? then PairsFromJson(a[i].items) else Thrown(ILL_TYPED)
  }

  function QueryFromArray(a: seq<Json>): Result<Query> {
    var queryType :- StrAt(a, 7);
    if queryType == LAST then
      var last :- NumAt(a, 8);
      Ok(Last(last))
    else if queryType == FROM then
      var timestamp :- NumAt(a, 8);
      var sequenceNumber :- OptionalNumAt(a, 9);
      var publisherId :- OptionalStrAt(a, 10);
      Ok(From(Ref(timestamp, sequenceNumber), publisherId, Undefined))
    else if queryType == RANGE then
      var fromTimestamp :- NumAt(a, 8);
      var fromSequenceNumber :- OptionalNumAt(a, 9);
      var toTimestamp :- NumAt(a, 10);
      var toSequenceNumber :- OptionalNumAt(a, 11);
      var msgChainId :- OptionalStrAt(a, 12);
      var publisherId :- OptionalStrAt(a, 13);
      Ok(Range(Ref(fromTimestamp, fromSequenceNumber), Ref(toTimestamp, toSequenceNumber), msgChainId, publisherId, Undefined))
    else Ok(Other(queryType))
  }

  function MetadataFromArray(a: seq<Json>): Result<Metadata> {
    var streamId :- StrAt(a, 0);
    var streamPartition :- NumAt(a, 1);
    var timestamp :- NumAt(a, 2);
    var sequenceNumber :- NumAt(a, 3);
    var signature :- StrAt(a, 4);
    var publisherId :- StrAt(a, 5);
    var msgChainId :- StrAt(a, 6);
    Ok(Metadata(streamId, streamPartition, timestamp, sequenceNumber, signature, publisherId, msgChainId))
  }

  function RequestFromArray(a: seq<Json>): Result<Message> {
    var seqNum :- NumAt(a, 2);
    var requestId :- StrAt(a, 3);
    var consumerId :- StrAt(a, 4);
    var streamId :- StrAt(a, 5);
    var partition :- NumAt(a, 6);
    var query :- QueryFromArray(a);
    Ok(QueryRequest(1, seqNum, requestId, consumerId, streamId, partition, query))
  }

  /** `new Map(JSON.parse(text))`. */
  function MapFromText(text: Text): Result<seq<(Text, Text)>> {
    var entries :- Parse(text);
    if !entries.JArr? then Thrown(ILL_TYPED)
    else
      var pairs :- PairsFromJson(entries.items);
      Ok(NewMap(pairs))
  }

  function ResponseFromArray(a: seq<Json>): Result<Message> {
    var seqNum :- NumAt(a, 2);
    var requestId :- StrAt(a, 3);
    var requestPublisherId :- StrAt(a, 4);
    var text :- StrAt(a, 5);
    var hashMap :- MapFromText(text);
    Ok(QueryResponse(1, seqNum, requestId, requestPublisherId, hashMap))
  }

  function PropagateFromArray(a: seq<Json>): Result<Message> {
    var seqNum :- NumAt(a, 2);
    var requestId :- StrAt(a, 3);
    var requestPublisherId :- StrAt(a, 4);
    var payload :- PairsAt(a, 5);
    Ok(QueryPropagate(1, seqNum, requestId, requestPublisherId, payload))
  }

  function ProofFromArray(a: seq<Json>): Result<Message> {
    var seqNum :- NumAt(a, 2);
    var address :- StrAt(a, 3);
    var hash :- StrAt(a, 4);
    var toth :- StrAt(a, 5);
    var timestamp :- NumAt(a, 6);
    var signature :- StrAt(a, 7);
    Ok(ProofOfReport(1, seqNum, address, hash, toth, timestamp, signature))
  }

  function RecoveryRequestFromArray(a: seq<Json>): Result<Message> {
    var seqNum :- NumAt(a, 2);
    var requestId :- StrAt(a, 3);
    var from :- NumAt(a, 4);
    var to :- NumAt(a, 5);
    Ok(RecoveryRequest(1, seqNum, requestId, from, to))
  }

  function RecoveryCompleteFromArray(a: seq<Json>): Result<Message> {
    var seqNum :- NumAt(a, 2);
    var requestId :- StrAt(a, 3);
    var isFulfilled :- BoolAt(a, 4);
    Ok(RecoveryComplete(1, seqNum, requestId, isFulfilled))
  }

  function RecoveryResponseFromArray(a: seq<Json>): Result<Message>
    decreases Weights(a), 1
  {
    var seqNum :- NumAt(a, 2);
    var requestId :- StrAt(a, 3);
    if |a| <= 4 || !a[4].JArr? then Thrown(ILL_TYPED)
    else
      assert Weight(a[4]) <= Weights(a);
      var recovered :- RecoveredFromArray(a[4].items);
      Ok(RecoveryResponse(1, seqNum, requestId, recovered))
  }

  function RecoveredFromArray(items: seq<Json>): Result<seq<Recovered>>
    decreases Weights(items), 0
  {
    if items == [] then Ok([])
    else if !items[0].JArr? || |items[0].items| < 2 || !items[0].items[1].JArr? then Thrown(ILL_TYPED)
    else
      assert Weight(items[0].items[0]) <= Weights(items[0].items);
      var content :- DeserializeJson(items[0].items[0]);
      var metadata :- MetadataFromArray(items[0].items[1].items);
      var rest :- RecoveredFromArray(items[1..]);
      Ok([Recovered(content, metadata)] + rest)
  }

  /** The serializer found for the version and type an array names, and the message it builds. */
  function FromArray(j: Json): Result<Message>
    decreases Weight(j), 0
  {
    if !j.JArr? || |j.items| == 0 || j.items[0] != JNum(1) then Thrown(UNSUPPORTED_VERSION)
    else if |j.items| == 1 || !j.items[1].JNum? then Thrown(UNSUPPORTED_TYPE)
    else
      match j.items[1].number
      case 1 => RequestFromArray(j.items)
      case 2 => ResponseFromArray(j.items)
      case 3 => PropagateFromArray(j.items)
      case 4 => ProofFromArray(j.items)
      case 5 => RecoveryRequestFromArray(j.items)
      case 6 => RecoveryResponseFromArray(j.items)
      case 7 => RecoveryCompleteFromArray(j.items)
      case _ => Thrown(UNSUPPORTED_TYPE)
  }

  /** A message arrives as a string or as an array. */
  function DeserializeJson(j: Json): Result<Message>
    decreases Weight(j), 1
  {
    if j.JStr? then
      var parsed :- Parse(j.text);
      FromArray(parsed)
    else FromArray(j)
  }

  function Deserialize(t: Text): Result<Message> {
    DeserializeJson(JStr(t))
  }

  // ----- What the wire carries -----

  function OnWire(q: Query): Query {
    match q
    case From(from, publisherId, _) => From(RefOnWire(from), publisherId.OnWire(), Undefined)
    case Range(from, to, msgChainId, publisherId, _) =>
      Range(RefOnWire(from), RefOnWire(to), msgChainId.OnWire(), publisherId.OnWire(), Undefined)
    case _ => q
  }

  function RefOnWire(r: Ref): Ref {
    Ref(r.timestamp, r.sequenceNumber.OnWire())
  }

  /** What arrives of a message: `undefined` as `null`, and no `limit`, at any depth. */
  function Arrival(m: Message): Message
    decreases m, 1
  {
    if m.QueryRequest? then m.(query := OnWire(m.query))
    else if m.RecoveryResponse? then m.(recovered := Arrivals(m.recovered))
    else m
  }

  function Arrivals(recovered: seq<Recovered>): (r: seq<Recovered>)
    ensures |r| == |recovered|
    decreases recovered, 0
  {
    if recovered == [] then []
    else
      var Recovered(content, metadata) := recovered[0];
      assert content < recovered[0];
      [Recovered(Arrival(content), metadata)] + Arrivals(recovered[1..])
  }

  /** Every message, at any depth, has the version the serializers are registered for. */
  ghost predicate AllLatest(m: Message)
    decreases m
  {
    && m.version == LATEST_VERSION
    && (m.RecoveryResponse? ==> forall i :: 0 <= i < |m.recovered| ==> AllLatest(m.recovered[i].content))
  }

  lemma {:induction false} PairsBack(pairs: seq<(Text, Text)>)
    ensures PairsFromJson(PairsToJson(pairs)) == Ok(pairs)
  {
    if pairs != [] {
      PairsBack(pairs[1..]);
      assert PairsToJson(pairs)[1..] == PairsToJson(pairs[1..]);
      assert pairs == [(pairs[0].0, pairs[0].1)] + pairs[1..];
    }
  }

  // ----- Reading back one message -----

  /** `a` is the array of `m`, and `m` arrives as it should. */
  ghost predicate ComesBack(m: Message, a: seq<Json>) {
    m.version == LATEST_VERSION && ToArray(m) == Ok(JArr(a)) && FromArray(JArr(a)) == Ok(Arrival(m))
  }

  lemma QueryBack(q: Query, head: seq<Json>)
    requires |head| == 7
    ensures QueryFromArray(head + QueryToArray(q)) == Ok(OnWire(q))
  {
    var a := head + QueryToArray(q);
    assert forall i: nat :: i < |QueryToArray(q)| ==> a[7 + i] == QueryToArray(q)[i];
    assert StrAt(a, 7).Ok?;
    if q.From? {
      assert a[8] == JNum(q.from.timestamp) && a[9] == FieldNum(q.from.sequenceNumber) && a[10] == FieldStr(q.publisherId);
    } else if q.Range? {
      assert a[8] == JNum(q.from.timestamp) && a[9] == FieldNum(q.from.sequenceNumber);
      assert a[10] == JNum(q.to.timestamp) && a[11] == FieldNum(q.to.sequenceNumber);
      assert a[12] == FieldStr(q.msgChainId) && a[13] == FieldStr(q.publisherId);
    } else if q.Last? {
      assert a[8] == JNum(q.last);
    }
  }

  lemma RequestBack(m: Message) returns (a: seq<Json>)
    requires m.QueryRequest? && m.version == LATEST_VERSION
    ensures ComesBack(m, a)
  {
    var head := [JNum(1), JNum(1), JNum(m.seqNum), JStr(m.requestId), JStr(m.consumerId), JStr(m.streamId), JNum(m.partition)];
    a := head + QueryToArray(m.query);
    assert [JNum(1), JNum(1)] + ToFields(m).value == a;
    QueryBack(m.query, head);
  }

  lemma MapTextBack(entries: seq<(Text, Text)>)
    requires UniqueKeys(entries)
    ensures MapFromText(Stringify(JArr(PairsToJson(entries)))) == Ok(entries)
  {
    ParseUndoesStringify(JArr(PairsToJson(entries)));
    PairsBack(entries);
    NewMapOfMap(entries);
  }

  lemma MapFromTextIsMap(text: Text)
    ensures MapFromText(text).Ok? ==> UniqueKeys(MapFromText(text).value)
  {
    if MapFromText(text).Ok? {
      NewMapIsMap(PairsFromJson(Parse(text).value.items).value);
    }
  }

  lemma ResponseFieldsBack(seqNum: SafeInt, requestId: Text, requestPublisherId: Text, text: Text, hashMap: seq<(Text, Text)>)
    requires MapFromText(text) == Ok(hashMap)
    ensures ResponseFromArray([JNum(1), JNum(2), JNum(seqNum), JStr(requestId), JStr(requestPublisherId), JStr(text)]) ==
            Ok(QueryResponse(1, seqNum, requestId, requestPublisherId, hashMap))
  {
    var a := [JNum(1), JNum(2), JNum(seqNum), JStr(requestId), JStr(requestPublisherId), JStr(text)];
    assert NumAt(a, 2) == Ok(seqNum) && StrAt(a, 3) == Ok(requestId) && StrAt(a, 4) == Ok(requestPublisherId);
    assert StrAt(a, 5) == Ok(text);
  }

  lemma ResponseWritten(m: Message, text: Text)
    requires m.QueryResponse? && m.version == LATEST_VERSION
    requires text == Stringify(JArr(PairsToJson(m.hashMap)))
    ensures ToArray(m) ==
            Ok(JArr([JNum(1), JNum(2), JNum(m.seqNum), JStr(m.requestId), JStr(m.requestPublisherId), JStr(text)]))
  {
    assert [JNum(1), JNum(2)] + ToFields(m).value ==
           [JNum(1), JNum(2), JNum(m.seqNum), JStr(m.requestId), JStr(m.requestPublisherId), JStr(text)];
  }

  lemma ResponseBack(m: Message) returns (a: seq<Json>)
    requires m.QueryResponse? && m.version == LATEST_VERSION && UniqueKeys(m.hashMap)
    ensures ComesBack(m, a)
  {
    var text := Stringify(JArr(PairsToJson(m.hashMap)));
    a := [JNum(1), JNum(2), JNum(m.seqNum), JStr(m.requestId), JStr(m.requestPublisherId), JStr(text)];
    ResponseWritten(m, text);
    MapTextBack(m.hashMap);
    ResponseFieldsBack(m.seqNum, m.requestId, m.requestPublisherId, text, m.hashMap);
  }

  lemma PropagateBack(m: Message) returns (a: seq<Json>)
    requires m.QueryPropagate? && m.version == LATEST_VERSION
    ensures ComesBack(m, a)
  {
    a := [JNum(1), JNum(3), JNum(m.seqNum), JStr(m.requestId), JStr(m.requestPublisherId), JArr(PairsToJson(m.payload))];
    assert [JNum(1), JNum(3)] + ToFields(m).value == a;
    PairsBack(m.payload);
  }

  lemma ProofBack(m: Message) returns (a: seq<Json>)
    requires m.ProofOfReport? && m.version == LATEST_VERSION
    ensures ComesBack(m, a)
  {
    a := [JNum(1), JNum(4), JNum(m.seqNum), JStr(m.address), JStr(m.hash), JStr(m.toth), JNum(m.timestamp), JStr(m.signature)];
    assert [JNum(1), JNum(4)] + ToFields(m).value == a;
  }

  lemma RecoveryRequestBack(m: Message) returns (a: seq<Json>)
    requires m.RecoveryRequest? && m.version == LATEST_VERSION
    ensures ComesBack(m, a)
  {
    a := [JNum(1), JNum(5), JNum(m.seqNum), JStr(m.requestId), JNum(m.from), JNum(m.to)];
    assert [JNum(1), JNum(5)] + ToFields(m).value == a;
  }

  lemma RecoveryCompleteBack(m: Message) returns (a: seq<Json>)
    requires m.RecoveryComplete? && m.version == LATEST_VERSION
    ensures ComesBack(m, a)
  {
    a := [JNum(1), JNum(7), JNum(m.seqNum), JStr(m.requestId), JBool(m.isFulfilled)];
    assert [JNum(1), JNum(7)] + ToFields(m).value == a;
  }

  lemma RecoveryResponseWritten(m: Message, payload: seq<Json>)
    requires m.RecoveryResponse? && m.version == LATEST_VERSION
    requires RecoveredToArray(m.recovered) == Ok(payload)
    ensures ToArray(m) == Ok(JArr([JNum(1), JNum(6), JNum(m.seqNum), JStr(m.requestId), JArr(payload)]))
  {
    assert [JNum(1), JNum(6)] + ToFields(m).value == [JNum(1), JNum(6), JNum(m.seqNum), JStr(m.requestId), JArr(payload)];
  }

  lemma RecoveryResponseRead(seqNum: SafeInt, requestId: Text, payload: seq<Json>, recovered: seq<Recovered>)
    requires RecoveredFromArray(payload) == Ok(recovered)
    ensures FromArray(JArr([JNum(1), JNum(6), JNum(seqNum), JStr(requestId), JArr(payload)])) ==
            Ok(RecoveryResponse(1, seqNum, requestId, recovered))
  {
    var a := [JNum(1), JNum(6), JNum(seqNum), JStr(requestId), JArr(payload)];
    assert NumAt(a, 2) == Ok(seqNum) && StrAt(a, 3) == Ok(requestId);
    assert FromArray(JArr(a)) == RecoveryResponseFromArray(a);
  }

  lemma RecoveryResponseBack(m: Message, payload: seq<Json>) returns (a: seq<Json>)
    requires m.RecoveryResponse? && m.version == LATEST_VERSION
    requires RecoveredToArray(m.recovered) == Ok(payload) && RecoveredFromArray(payload) == Ok(Arrivals(m.recovered))
    ensures ComesBack(m, a)
  {
    a := [JNum(1), JNum(6), JNum(m.seqNum), JStr(m.requestId), JArr(payload)];
    RecoveryResponseWritten(m, payload);
    RecoveryResponseRead(m.seqNum, m.requestId, payload, Arrivals(m.recovered));
  }

  lemma MetadataBack(m: Metadata)
    ensures MetadataFromArray(MetadataToArray(m).items) == Ok(m)
  {
  }

  // ----- Messages nested to any depth -----

  /** A message is written exactly when it and all messages in it have the latest version, and reading it back gives its arrival. */
  lemma {:induction false} SerializeArrives(m: Message)
    requires Valid(m)
    ensures Serialize(m).Ok? <==> AllLatest(m)
    ensures AllLatest(m) ==> Deserialize(Serialize(m).value) == Ok(Arrival(m))
    decreases m, 1
  {
    if m.version == LATEST_VERSION {
      if m.RecoveryResponse? {
        RecoveredArrive(m.recovered);
      }
      if AllLatest(m) {
        var a := ArrayBack(m);
        ParseUndoesStringify(JArr(a));
      } else {
        assert m.RecoveryResponse? && ToFields(m).Thrown?;
      }
    }
  }

  /** The array of a message whose nested messages come back. */
  lemma ArrayBack(m: Message) returns (a: seq<Json>)
    requires Valid(m) && m.version == LATEST_VERSION
    requires m.RecoveryResponse? ==>
               && RecoveredToArray(m.recovered).Ok?
               && RecoveredFromArray(RecoveredToArray(m.recovered).value) == Ok(Arrivals(m.recovered))
    ensures ComesBack(m, a)
  {
    match m {
      case QueryRequest(_, _, _, _, _, _, _) => a := RequestBack(m);
      case QueryResponse(_, _, _, _, _) => a := ResponseBack(m);
      case QueryPropagate(_, _, _, _, _) => a := PropagateBack(m);
      case ProofOfReport(_, _, _, _, _, _, _) => a := ProofBack(m);
      case RecoveryRequest(_, _, _, _, _) => a := RecoveryRequestBack(m);
      case RecoveryResponse(_, _, _, recovered) => a := RecoveryResponseBack(m, RecoveredToArray(recovered).value);
      case RecoveryComplete(_, _, _, _) => a := RecoveryCompleteBack(m);
    }
  }

  lemma {:induction false} RecoveredArrive(recovered: seq<Recovered>)
    requires forall i :: 0 <= i < |recovered| ==> Valid(recovered[i].content)
    ensures RecoveredToArray(recovered).Ok? <==> forall i :: 0 <= i < |recovered| ==> AllLatest(recovered[i].content)
    ensures RecoveredToArray(recovered).Ok? ==>
              RecoveredFromArray(RecoveredToArray(recovered).value) == Ok(Arrivals(recovered))
    decreases recovered, 0
  {
    if recovered != [] {
      var Recovered(content, metadata) := recovered[0];
      assert content < recovered[0];
      SerializeArrives(content);
      RecoveredArrive(recovered[1..]);
      assert forall i :: 0 < i < |recovered| ==> recovered[i] == recovered[1..][i - 1];
      if RecoveredToArray(recovered).Ok? {
        RecoveredStep(recovered);
      }
    }
  }

  lemma RecoveredStep(recovered: seq<Recovered>)
    requires recovered != [] && RecoveredToArray(recovered).Ok?
    requires Serialize(recovered[0].content).Ok? ==>
               Deserialize(Serialize(recovered[0].content).value) == Ok(Arrival(recovered[0].content))
    requires RecoveredToArray(recovered[1..]).Ok? ==>
               RecoveredFromArray(RecoveredToArray(recovered[1..]).value) == Ok(Arrivals(recovered[1..]))
    ensures RecoveredFromArray(RecoveredToArray(recovered).value) == Ok(Arrivals(recovered))
  {
    var first := Serialize(recovered[0].content).value;
    var rest := RecoveredToArray(recovered[1..]).value;
    var item := JArr([JStr(first), MetadataToArray(recovered[0].metadata)]);
    assert RecoveredToArray(recovered).value == [item] + rest;
    assert ([item] + rest)[1..] == rest;
    MetadataBack(recovered[0].metadata);
  }

  // ----- What the round trip loses, and that it loses it once -----

  predicate IsPlainRef(r: Ref) {
    !r.sequenceNumber.Undefined?
  }

  predicate IsPlainQuery(q: Query) {
    match q
    case From(from, publisherId, limit) => IsPlainRef(from) && !publisherId.Undefined? && limit.Undefined?
    case Range(from, to, msgChainId, publisherId, limit) =>
      IsPlainRef(from) && IsPlainRef(to) && !msgChainId.Undefined? && !publisherId.Undefined? && limit.Undefined?
    case _ => true
  }

  /** No request, at any depth, leaves an optional field `undefined` or carries a limit. */
  ghost predicate IsPlain(m: Message)
    decreases m
  {
    && (m.QueryRequest? ==> IsPlainQuery(m.query))
    && (m.RecoveryResponse? ==> forall i :: 0 <= i < |m.recovered| ==> IsPlain(m.recovered[i].content))
  }

  lemma {:induction false} ArrivalsAt(recovered: seq<Recovered>, i: nat)
    requires i < |recovered|
    ensures Arrivals(recovered)[i] == Recovered(Arrival(recovered[i].content), recovered[i].metadata)
  {
    if i > 0 {
      ArrivalsAt(recovered[1..], i - 1);
    }
  }

  lemma {:induction false} PlainArrives(m: Message)
    ensures Arrival(m) == m <==> IsPlain(m)
    ensures IsPlain(Arrival(m))
    ensures Valid(m) ==> Valid(Arrival(m))
    ensures AllLatest(m) ==> AllLatest(Arrival(m))
    decreases m
  {
    if m.RecoveryResponse? {
      var arrived := Arrivals(m.recovered);
      forall i | 0 <= i < |m.recovered|
        ensures arrived[i] == m.recovered[i] <==> IsPlain(m.recovered[i].content)
        ensures IsPlain(arrived[i].content)
        ensures Valid(m.recovered[i].content) ==> Valid(arrived[i].content)
        ensures AllLatest(m.recovered[i].content) ==> AllLatest(arrived[i].content)
      {
        PlainArrives(m.recovered[i].content);
        ArrivalsAt(m.recovered, i);
      }
      assert arrived == m.recovered <==> forall i :: 0 <= i < |arrived| ==> arrived[i] == m.recovered[i];
    }
  }

  /** A message comes back unchanged exactly when it is plain. */
  lemma RoundTripIsExactIffPlain(m: Message)
    requires Valid(m) && AllLatest(m)
    ensures Serialize(m).Ok? && (Deserialize(Serialize(m).value) == Ok(m) <==> IsPlain(m))
  {
    SerializeArrives(m);
    PlainArrives(m);
  }

  /** Writing what arrived gives the same text. */
  lemma {:induction false} SameTextAgain(m: Message)
    requires AllLatest(m)
    ensures Serialize(Arrival(m)) == Serialize(m)
    decreases m, 1
  {
    if m.RecoveryResponse? {
      SameTextsAgain(m.recovered);
    }
    assert ToFields(Arrival(m)) == ToFields(m);
  }

  lemma {:induction false} SameTextsAgain(recovered: seq<Recovered>)
    requires forall i :: 0 <= i < |recovered| ==> AllLatest(recovered[i].content)
    ensures RecoveredToArray(Arrivals(recovered)) == RecoveredToArray(recovered)
    decreases recovered, 0
  {
    if recovered != [] {
      var Recovered(content, metadata) := recovered[0];
      assert content < recovered[0];
      SameTextAgain(content);
      SameTextsAgain(recovered[1..]);
      assert Arrivals(recovered)[1..] == Arrivals(recovered[1..]);
    }
  }

  /** Two messages share a text exactly when they arrive as the same message. */
  lemma SameTextMeansSameArrival(m: Message, other: Message)
    requires Valid(m) && Valid(other) && AllLatest(m) && AllLatest(other)
    ensures Serialize(m) == Serialize(other) <==> Arrival(m) == Arrival(other)
  {
    SerializeArrives(m);
    SerializeArrives(other);
    SameTextAgain(m);
    SameTextAgain(other);
  }

  // ----- Texts that did not come from the writer -----

  lemma {:induction false} DeserializedIsWritable(j: Json)
    ensures DeserializeJson(j).Ok? ==> Valid(DeserializeJson(j).value) && AllLatest(DeserializeJson(j).value)
    decreases Weight(j), 1
  {
    if j.JStr? {
      if Parse(j.text).Ok? {
        ReadIsWritable(Parse(j.text).value);
      }
    } else {
      ReadIsWritable(j);
    }
  }

  lemma {:induction false} ReadIsWritable(j: Json)
    ensures FromArray(j).Ok? ==> Valid(FromArray(j).value) && AllLatest(FromArray(j).value)
    decreases Weight(j), 0
  {
    if FromArray(j).Ok? {
      var m := FromArray(j).value;
      var a := j.items;
      if a[1].number == 2 {
        MapFromTextIsMap(StrAt(a, 5).value);
      } else if a[1].number == 6 {
        assert FromArray(j) == RecoveryResponseFromArray(a);
        assert Weight(a[4]) <= Weights(a);
        RecoveredAreWritable(a[4].items);
      }
    }
  }

  lemma {:induction false} RecoveredAreWritable(items: seq<Json>)
    ensures RecoveredFromArray(items).Ok? ==>
              forall i :: 0 <= i < |RecoveredFromArray(items).value| ==>
                            Valid(RecoveredFromArray(items).value[i].content) && AllLatest(RecoveredFromArray(items).value[i].content)
    decreases Weights(items), 0
  {
    if items != [] && RecoveredFromArray(items).Ok? {
      assert Weight(items[0].items[0]) <= Weights(items[0].items);
      DeserializedIsWritable(items[0].items[0]);
      RecoveredAreWritable(items[1..]);
    }
  }

  /** Whatever text was accepted, writing its message and reading that gives the message as it arrives, now and ever after. */
  lemma AcceptedTextSettles(t: Text)
    requires Deserialize(t).Ok?
    ensures var m := Deserialize(t).value;
            && Serialize(m).Ok?
            && Deserialize(Serialize(m).value) == Ok(Arrival(m))
            && Serialize(Arrival(m)) == Serialize(m)
  {
    var m := Deserialize(t).value;
    DeserializedIsWritable(JStr(t));
    SerializeArrives(m);
    SameTextAgain(m);
  }
}
