/** Reports in their plain and serialized forms. */
module Report {
  import opened Prelude
  import opened Entries
  import opened BigNumbers
  import Hex
  import S = SystemMessage

  /** What a stream or a consumer is charged. */
  datatype Line<+N> = Line(id: Text, capture: N, bytes: nat)

  datatype StorageEvent = StorageEvent(id: Text, hash: Text, size: nat)

  datatype QueryEvent = QueryEvent(id: Text, hash: Text, size: nat, query: S.Query, consumer: Text)

  datatype Events = Events(queries: seq<QueryEvent>, storage: seq<StorageEvent>)

  /** Amounts are BigNumbers in a plain report and hexadecimal texts in a serialized one. */
  datatype Report<+N> = Report(
    id: Text, height: nat, treasury: N, streams: seq<Line<N>>, consumers: seq<Line<N>>,
    nodes: seq<(Text, N)>, delegates: seq<(Text, seq<(Text, N)>)>, events: Option<Events>)

  type Plain = Report<BigNumber>
  type Serialized = Report<Text>

  /** The records of a report are JavaScript objects, whose keys differ. */
  ghost predicate Valid<N>(r: Report<N>) {
    && UniqueKeys(r.nodes) && UniqueKeys(r.delegates)
    && forall i :: 0 <= i < |r.delegates| ==> UniqueKeys(r.delegates[i].1)
  }

  function Map<A, B>(f: A -> B, s: seq<A>): (r: seq<B>)
    ensures |r| == |s| && forall i :: 0 <= i < |s| ==> r[i] == f(s[i])
  {
    if s == [] then [] else [f(s[0])] + Map(f, s[1..])
  }

  /** Stops at the first element that throws. */
  function MapOrThrow<A, B>(f: A -> Result<B>, s: seq<A>): (r: Result<seq<B>>)
    ensures r.Ok? <==> forall i :: 0 <= i < |s| ==> f(s[i]).Ok?
    ensures r.Ok? ==> |r.value| == |s| && forall i :: 0 <= i < |s| ==> Ok(r.value[i]) == f(s[i])
  {
    if s == [] then Ok([])
    else
      var first :- f(s[0]);
      var rest :- MapOrThrow(f, s[1..]);
      Ok([first] + rest)
  }

  lemma MapOrThrowGives<A, B>(f: A -> Result<B>, s: seq<A>, r: seq<B>)
    requires |r| == |s| && forall i :: 0 <= i < |s| ==> f(s[i]) == Ok(r[i])
    ensures MapOrThrow(f, s) == Ok(r)
  {
    assert MapOrThrow(f, s).value == r;
  }

  // ----- Serializing -----

  function StreamOut(p: Line<BigNumber>): Line<Text> {
    Line(Hex.StrToHex(p.id), ToHexString(p.capture), p.bytes)
  }

  function ConsumerOut(p: Line<BigNumber>): Line<Text> {
    Line(p.id, ToHexString(p.capture), p.bytes)
  }

  function EntryOut(e: (Text, BigNumber)): (Text, Text) {
    (e.0, ToHexString(e.1))
  }

  function DelegateOut(d: (Text, seq<(Text, BigNumber)>)): (Text, seq<(Text, Text)>) {
    (d.0, Map(EntryOut, d.1))
  }

  function StorageOut(e: StorageEvent): StorageEvent {
    e.(id := Hex.StrToHex(e.id))
  }

  function EventsOut(events: Option<Events>): Option<Events> {
    if events.None? then None else Some(events.value.(storage := Map(StorageOut, events.value.storage)))
  }

  function Serialize(r: Plain): Serialized {
    Report(r.id, r.height, ToHexString(r.treasury), Map(StreamOut, r.streams), Map(ConsumerOut, r.consumers),
           Map(EntryOut, r.nodes), Map(DelegateOut, r.delegates), EventsOut(r.events))
  }

  // ----- Deserializing -----

  function StreamIn(p: Line<Text>): Result<Line<BigNumber>> {
    var capture :- FromText(p.capture);
    Ok(Line(Hex.HexToStr(p.id), capture, p.bytes))
  }

  function ConsumerIn(p: Line<Text>): Result<Line<BigNumber>> {
    var capture :- FromText(p.capture);
    Ok(Line(p.id, capture, p.bytes))
  }

  function EntryIn(e: (Text, Text)): Result<(Text, BigNumber)> {
    var value :- FromText(e.1);
    Ok((e.0, value))
  }

  function DelegateIn(d: (Text, seq<(Text, Text)>)): Result<(Text, seq<(Text, BigNumber)>)> {
    var records :- MapOrThrow(EntryIn, d.1);
    Ok((d.0, records))
  }

  function StorageIn(e: StorageEvent): StorageEvent {
    e.(id := Hex.HexToStr(e.id))
  }

  function EventsIn(events: Option<Events>): Option<Events> {
    if events.None? then None else Some(events.value.(storage := Map(StorageIn, events.value.storage)))
  }

  function Deserialize(s: Serialized): Result<Plain> {
    var nodes :- MapOrThrow(EntryIn, s.nodes);
    var delegates :- MapOrThrow(DelegateIn, s.delegates);
    var treasury :- FromText(s.treasury);
    var streams :- MapOrThrow(StreamIn, s.streams);
    var consumers :- MapOrThrow(ConsumerIn, s.consumers);
    Ok(Report(s.id, s.height, treasury, streams, consumers, nodes, delegates, EventsIn(s.events)))
  }

  // ----- The loops that fill the records -----

  /** Filling a record key by key keeps every entry in its place. */
  lemma FillNext<V>(filled: seq<(Text, V)>, whole: seq<(Text, V)>, i: nat)
    requires i < |whole| && UniqueKeys(whole) && filled == whole[..i]
    ensures SetEntry(filled, whole[i].0, whole[i].1) == whole[..i + 1]
  {
    SetNewEntry(filled, whole[i].0, whole[i].1);
  }

  method FillRecord(entries: seq<(Text, BigNumber)>) returns (record: seq<(Text, Text)>)
    requires UniqueKeys(entries)
    ensures record == Map(EntryOut, entries)
  {
    ghost var whole := Map(EntryOut, entries);
    record := [];
    for i := 0 to |entries|
      invariant record == whole[..i]
    {
      FillNext(record, whole, i);
      record := SetEntry(record, entries[i].0, ToHexString(entries[i].1));
    }
  }

  method FillDelegates(delegates: seq<(Text, seq<(Text, BigNumber)>)>) returns (filled: seq<(Text, seq<(Text, Text)>)>)
    requires UniqueKeys(delegates) && forall i :: 0 <= i < |delegates| ==> UniqueKeys(delegates[i].1)
    ensures filled == Map(DelegateOut, delegates)
  {
    ghost var whole := Map(DelegateOut, delegates);
    filled := [];
    for i := 0 to |delegates|
      invariant filled == whole[..i]
    {
      FillNext(filled, whole, i);
      var records := FillRecord(delegates[i].1);
      filled := SetEntry(filled, delegates[i].0, records);
    }
  }

  method SerializeReport(r: Plain) returns (s: Serialized)
    requires Valid(r)
    ensures s == Serialize(r) && Valid(s)
  {
    var nodes := FillRecord(r.nodes);
    var delegates := FillDelegates(r.delegates);
    s := Report(r.id, r.height, ToHexString(r.treasury), Map(StreamOut, r.streams), Map(ConsumerOut, r.consumers),
                nodes, delegates, EventsOut(r.events));
  }

  /** The first entries of `s`, read without an error. */
  ghost predicate ReadSoFar<A, B>(read: A -> Result<B>, s: seq<(Text, A)>, sofar: seq<(Text, B)>) {
    |sofar| <= |s| && forall j :: 0 <= j < |sofar| ==> sofar[j].0 == s[j].0 && read(s[j].1) == Ok(sofar[j].1)
  }

  lemma ReadNext<A, B>(read: A -> Result<B>, s: seq<(Text, A)>, sofar: seq<(Text, B)>, value: B)
    requires UniqueKeys(s) && ReadSoFar(read, s, sofar) && |sofar| < |s|
    requires read(s[|sofar|].1) == Ok(value)
    ensures ReadSoFar(read, s, SetEntry(sofar, s[|sofar|].0, value))
    ensures |SetEntry(sofar, s[|sofar|].0, value)| == |sofar| + 1
  {
    SetNewEntry(sofar, s[|sofar|].0, value);
  }

  method ReadRecord(entries: seq<(Text, Text)>) returns (record: Result<seq<(Text, BigNumber)>>)
    requires UniqueKeys(entries)
    ensures record.Ok? <==> MapOrThrow(EntryIn, entries).Ok?
    ensures record.Ok? ==> record == MapOrThrow(EntryIn, entries)
  {
    var filled: seq<(Text, BigNumber)> := [];
    for i := 0 to |entries|
      invariant |filled| == i && ReadSoFar(FromText, entries, filled)
    {
      var value := FromText(entries[i].1);
      if value.Thrown? {
        assert EntryIn(entries[i]).Thrown?;
        return Thrown(value.reason);
      }
      ReadNext(FromText, entries, filled, value.value);
      filled := SetEntry(filled, entries[i].0, value.value);
    }
    assert forall i :: 0 <= i < |entries| ==> EntryIn(entries[i]) == Ok((filled[i].0, filled[i].1));
    MapOrThrowGives(EntryIn, entries, filled);
    return Ok(filled);
  }

  function RecordIn(record: seq<(Text, Text)>): Result<seq<(Text, BigNumber)>> {
    MapOrThrow(EntryIn, record)
  }

  method ReadDelegates(delegates: seq<(Text, seq<(Text, Text)>)>) returns (filled: Result<seq<(Text, seq<(Text, BigNumber)>)>>)
    requires UniqueKeys(delegates) && forall i :: 0 <= i < |delegates| ==> UniqueKeys(delegates[i].1)
    ensures filled.Ok? <==> MapOrThrow(DelegateIn, delegates).Ok?
    ensures filled.Ok? ==> filled == MapOrThrow(DelegateIn, delegates)
  {
    var sofar: seq<(Text, seq<(Text, BigNumber)>)> := [];
    for i := 0 to |delegates|
      invariant |sofar| == i && ReadSoFar(RecordIn, delegates, sofar)
    {
      var records := ReadRecord(delegates[i].1);
      if records.Thrown? {
        assert DelegateIn(delegates[i]).Thrown?;
        return Thrown(records.reason);
      }
      ReadNext(RecordIn, delegates, sofar, records.value);
      sofar := SetEntry(sofar, delegates[i].0, records.value);
    }
    assert forall i :: 0 <= i < |delegates| ==> DelegateIn(delegates[i]) == Ok((sofar[i].0, sofar[i].1));
    MapOrThrowGives(DelegateIn, delegates, sofar);
    return Ok(sofar);
  }

  method DeserializeReport(s: Serialized) returns (r: Result<Plain>)
    requires Valid(s)
    ensures r.Ok? <==> Deserialize(s).Ok?
    ensures r.Ok? ==> r == Deserialize(s)
  {
    var nodes := ReadRecord(s.nodes);
    if nodes.Thrown? {
      return Thrown(nodes.reason);
    }
    var delegates := ReadDelegates(s.delegates);
    if delegates.Thrown? {
      return Thrown(delegates.reason);
    }
    var treasury := FromText(s.treasury);
    var streams := MapOrThrow(StreamIn, s.streams);
    var consumers := MapOrThrow(ConsumerIn, s.consumers);
    if treasury.Thrown? || streams.Thrown? || consumers.Thrown? {
      return Thrown("invalid BigNumber string");
    }
    return Ok(Report(s.id, s.height, treasury.value, streams.value, consumers.value, nodes.value, delegates.value, EventsIn(s.events)));
  }

  // ----- Round trips -----

  /** What comes back of a report: ids with their lone surrogates replaced. */
  function RepairedLine(p: Line<BigNumber>): Line<BigNumber> {
    p.(id := Hex.Repaired(p.id))
  }

  function RepairedEvents(events: Option<Events>): Option<Events> {
    if events.None? then None
    else Some(events.value.(storage := Map((e: StorageEvent) => e.(id := Hex.Repaired(e.id)), events.value.storage)))
  }

  function RepairedReport(r: Plain): Plain {
    r.(streams := Map(RepairedLine, r.streams), events := RepairedEvents(r.events))
  }

  lemma StreamBack(p: Line<BigNumber>)
    ensures StreamIn(StreamOut(p)) == Ok(RepairedLine(p))
  {
    FromOwnText(p.capture);
    Hex.HexToStrUndoesStrToHex(p.id);
  }

  lemma EntryBack(e: (Text, BigNumber))
    ensures EntryIn(EntryOut(e)) == Ok(e)
  {
    FromOwnText(e.1);
  }

  lemma RecordBack(entries: seq<(Text, BigNumber)>)
    ensures MapOrThrow(EntryIn, Map(EntryOut, entries)) == Ok(entries)
  {
    forall i | 0 <= i < |entries| ensures EntryIn(Map(EntryOut, entries)[i]) == Ok(entries[i]) {
      EntryBack(entries[i]);
    }
    MapOrThrowGives(EntryIn, Map(EntryOut, entries), entries);
  }

  lemma DelegatesBack(delegates: seq<(Text, seq<(Text, BigNumber)>)>)
    ensures MapOrThrow(DelegateIn, Map(DelegateOut, delegates)) == Ok(delegates)
  {
    forall i | 0 <= i < |delegates| ensures DelegateIn(Map(DelegateOut, delegates)[i]) == Ok(delegates[i]) {
      RecordBack(delegates[i].1);
    }
    MapOrThrowGives(DelegateIn, Map(DelegateOut, delegates), delegates);
  }

  lemma StreamsBack(streams: seq<Line<BigNumber>>)
    ensures MapOrThrow(StreamIn, Map(StreamOut, streams)) == Ok(Map(RepairedLine, streams))
  {
    forall i | 0 <= i < |streams| ensures StreamIn(Map(StreamOut, streams)[i]) == Ok(RepairedLine(streams[i])) {
      StreamBack(streams[i]);
    }
    MapOrThrowGives(StreamIn, Map(StreamOut, streams), Map(RepairedLine, streams));
  }

  lemma ConsumersBack(consumers: seq<Line<BigNumber>>)
    ensures MapOrThrow(ConsumerIn, Map(ConsumerOut, consumers)) == Ok(consumers)
  {
    forall i | 0 <= i < |consumers| ensures ConsumerIn(Map(ConsumerOut, consumers)[i]) == Ok(consumers[i]) {
      FromOwnText(consumers[i].capture);
    }
    MapOrThrowGives(ConsumerIn, Map(ConsumerOut, consumers), consumers);
  }

  lemma EventsBack(events: Option<Events>)
    ensures EventsIn(EventsOut(events)) == RepairedEvents(events)
  {
    if events.Some? {
      forall e: StorageEvent ensures StorageIn(StorageOut(e)) == e.(id := Hex.Repaired(e.id)) {
        Hex.HexToStrUndoesStrToHex(e.id);
      }
      assert EventsIn(EventsOut(events)).value.storage == RepairedEvents(events).value.storage;
    }
  }

  predicate StreamIdsWellFormed(streams: seq<Line<BigNumber>>) {
    forall i :: 0 <= i < |streams| ==> Hex.WellFormed(streams[i].id)
  }

  /** The ids that travel as hexadecimal UTF-8 are texts UTF-8 can carry. */
  predicate IdsWellFormed(r: Plain) {
    && StreamIdsWellFormed(r.streams)
    && (r.events.Some? ==> forall i :: 0 <= i < |r.events.value.storage| ==> Hex.WellFormed(r.events.value.storage[i].id))
  }

  lemma RepairedReportIff(r: Plain)
    ensures RepairedReport(r) == r <==> IdsWellFormed(r)
  {
    var repaired := RepairedReport(r);
    forall i | 0 <= i < |r.streams| ensures repaired.streams[i] == r.streams[i] <==> Hex.WellFormed(r.streams[i].id) {
      Hex.RepairedIff(r.streams[i].id);
    }
    assert repaired.streams == r.streams <==> forall i :: 0 <= i < |r.streams| ==> Hex.WellFormed(r.streams[i].id);
    if r.events.Some? {
      var (before, after) := (r.events.value.storage, repaired.events.value.storage);
      forall i | 0 <= i < |before| ensures after[i] == before[i] <==> Hex.WellFormed(before[i].id) {
        Hex.RepairedIff(before[i].id);
      }
      assert after == before <==> forall i :: 0 <= i < |before| ==> Hex.WellFormed(before[i].id);
    }
  }

  /** Every plain report can be read back, signed amounts and nested delegates included; it is unchanged exactly when its ids are well-formed. */
  lemma DeserializeUndoesSerialize(r: Plain)
    ensures Deserialize(Serialize(r)) == Ok(RepairedReport(r))
    ensures Deserialize(Serialize(r)) == Ok(r) <==> IdsWellFormed(r)
  {
    RecordBack(r.nodes);
    DelegatesBack(r.delegates);
    FromOwnText(r.treasury);
    StreamsBack(r.streams);
    ConsumersBack(r.consumers);
    EventsBack(r.events);
    RepairedReportIff(r);
  }

  /** Mapping into and out again gives everything back exactly when it gives every element back. */
  lemma MapBackIff<A, B>(into: A -> Result<B>, out: B -> A, s: seq<A>)
    ensures MapOrThrow(into, s).Ok? && Map(out, MapOrThrow(into, s).value) == s <==>
            forall i :: 0 <= i < |s| ==> into(s[i]).Ok? && out(into(s[i]).value) == s[i]
  {
    if MapOrThrow(into, s).Ok? {
      var back := Map(out, MapOrThrow(into, s).value);
      assert back == s <==> forall i :: 0 <= i < |s| ==> back[i] == s[i];
      assert forall i :: 0 <= i < |s| ==> back[i] == out(into(s[i]).value);
    }
  }

  predicate CanonicalRecord(record: seq<(Text, Text)>) {
    forall i :: 0 <= i < |record| ==> IsCanonical(record[i].1)
  }

  predicate CanonicalDelegates(delegates: seq<(Text, seq<(Text, Text)>)>) {
    forall i :: 0 <= i < |delegates| ==> CanonicalRecord(delegates[i].1)
  }

  predicate CanonicalCaptures(lines: seq<Line<Text>>) {
    forall i :: 0 <= i < |lines| ==> IsCanonical(lines[i].capture)
  }

  predicate CanonicalAmounts(s: Serialized) {
    && IsCanonical(s.treasury)
    && CanonicalCaptures(s.streams)
    && CanonicalCaptures(s.consumers)
    && CanonicalRecord(s.nodes)
    && CanonicalDelegates(s.delegates)
  }

  predicate HexStreamIds(streams: seq<Line<Text>>) {
    forall i :: 0 <= i < |streams| ==> Hex.IsTextHex(streams[i].id)
  }

  predicate HexEventIds(events: Option<Events>) {
    events.Some? ==> forall i :: 0 <= i < |events.value.storage| ==> Hex.IsTextHex(events.value.storage[i].id)
  }

  predicate CanonicalIds(s: Serialized) {
    HexStreamIds(s.streams) && HexEventIds(s.events)
  }

  lemma StreamKeepsIff(p: Line<Text>)
    ensures StreamIn(p).Ok? && StreamOut(StreamIn(p).value) == p <==> Hex.IsTextHex(p.id) && IsCanonical(p.capture)
  {
    FromTextKeepsIff(p.capture);
    Hex.StrToHexUndoesHexToStr(p.id);
  }

  lemma StreamsKeepIff(streams: seq<Line<Text>>)
    ensures MapOrThrow(StreamIn, streams).Ok? && Map(StreamOut, MapOrThrow(StreamIn, streams).value) == streams <==>
            HexStreamIds(streams) && CanonicalCaptures(streams)
  {
    MapBackIff(StreamIn, StreamOut, streams);
    forall i | 0 <= i < |streams|
      ensures StreamIn(streams[i]).Ok? && StreamOut(StreamIn(streams[i]).value) == streams[i] <==>
              Hex.IsTextHex(streams[i].id) && IsCanonical(streams[i].capture)
    {
      StreamKeepsIff(streams[i]);
    }
  }

  lemma ConsumersKeepIff(consumers: seq<Line<Text>>)
    ensures MapOrThrow(ConsumerIn, consumers).Ok? && Map(ConsumerOut, MapOrThrow(ConsumerIn, consumers).value) == consumers <==>
            CanonicalCaptures(consumers)
  {
    MapBackIff(ConsumerIn, ConsumerOut, consumers);
    forall i | 0 <= i < |consumers|
      ensures ConsumerIn(consumers[i]).Ok? && ConsumerOut(ConsumerIn(consumers[i]).value) == consumers[i] <==>
              IsCanonical(consumers[i].capture)
    {
      FromTextKeepsIff(consumers[i].capture);
    }
  }

  lemma RecordKeepsIff(record: seq<(Text, Text)>)
    ensures RecordIn(record).Ok? && Map(EntryOut, RecordIn(record).value) == record <==> CanonicalRecord(record)
  {
    MapBackIff(EntryIn, EntryOut, record);
    forall i | 0 <= i < |record|
      ensures EntryIn(record[i]).Ok? && EntryOut(EntryIn(record[i]).value) == record[i] <==> IsCanonical(record[i].1)
    {
      FromTextKeepsIff(record[i].1);
    }
  }

  lemma DelegatesKeepIff(delegates: seq<(Text, seq<(Text, Text)>)>)
    ensures MapOrThrow(DelegateIn, delegates).Ok? && Map(DelegateOut, MapOrThrow(DelegateIn, delegates).value) == delegates <==>
            CanonicalDelegates(delegates)
  {
    MapBackIff(DelegateIn, DelegateOut, delegates);
    forall i | 0 <= i < |delegates|
      ensures DelegateIn(delegates[i]).Ok? && DelegateOut(DelegateIn(delegates[i]).value) == delegates[i] <==>
              CanonicalRecord(delegates[i].1)
    {
      RecordKeepsIff(delegates[i].1);
    }
  }

  lemma EventsKeepIff(events: Option<Events>)
    ensures EventsOut(EventsIn(events)) == events <==> HexEventIds(events)
  {
    if events.Some? {
      var (before, after) := (events.value.storage, EventsOut(EventsIn(events)).value.storage);
      forall i | 0 <= i < |before| ensures after[i] == before[i] <==> Hex.IsTextHex(before[i].id) {
        Hex.StrToHexUndoesHexToStr(before[i].id);
      }
      assert after == before <==> forall i :: 0 <= i < |before| ==> Hex.IsTextHex(before[i].id);
    }
  }

  /** Writing a report that was read, part by part. */
  lemma SerializeOfDeserialized(s: Serialized)
    ensures Deserialize(s).Ok? <==>
            && MapOrThrow(EntryIn, s.nodes).Ok? && MapOrThrow(DelegateIn, s.delegates).Ok? && FromText(s.treasury).Ok?
            && MapOrThrow(StreamIn, s.streams).Ok? && MapOrThrow(ConsumerIn, s.consumers).Ok?
    ensures Deserialize(s).Ok? ==>
              Serialize(Deserialize(s).value) ==
              Report(s.id, s.height, ToHexString(FromText(s.treasury).value),
                     Map(StreamOut, MapOrThrow(StreamIn, s.streams).value),
                     Map(ConsumerOut, MapOrThrow(ConsumerIn, s.consumers).value),
                     Map(EntryOut, MapOrThrow(EntryIn, s.nodes).value),
                     Map(DelegateOut, MapOrThrow(DelegateIn, s.delegates).value), EventsOut(EventsIn(s.events)))
  {
  }

  /** A serialized report survives reading and writing exactly when its amounts and ids are canonical. */
  lemma SerializeUndoesDeserialize(s: Serialized)
    ensures Deserialize(s).Ok? && Serialize(Deserialize(s).value) == s <==> CanonicalAmounts(s) && CanonicalIds(s)
  {
    SerializeOfDeserialized(s);
    FromTextKeepsIff(s.treasury);
    StreamsKeepIff(s.streams);
    ConsumersKeepIff(s.consumers);
    RecordKeepsIff(s.nodes);
    DelegatesKeepIff(s.delegates);
    EventsKeepIff(s.events);
  }

  // ----- Either form -----

  datatype Payload = PlainForm(plain: Plain) | SerializedForm(serialized: Serialized)

  function PlainOf(payload: Payload): Result<Plain> {
    match payload
    case PlainForm(plain) => Ok(plain)
    case SerializedForm(serialized) => Deserialize(serialized)
  }

  function SerializedOf(payload: Payload): Serialized {
    match payload
    case PlainForm(plain) => Serialize(plain)
    case SerializedForm(serialized) => serialized
  }
}
