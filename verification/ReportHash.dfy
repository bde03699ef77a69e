/** What the hash of a report is taken of. */
module ReportHash {
  import opened Prelude
  import opened BigNumbers
  import opened Report
  import Hex

  /** A typed argument of the packed encoding. */
  datatype Item = StringItem(text: Text) | AddressItem(address: Text) | UintItem(number: nat)

  /** The arguments of the final hash; the hash function itself is not modelled. */
  datatype Hashed = Hashed(id: Text, height: nat, pack: seq<Item>, treasury: Text, timestamp: Option<nat>)

  function PackStream(p: Line<Text>): seq<Item> {
    [StringItem(Hex.HexToStr(p.id)), StringItem(p.capture), UintItem(p.bytes)]
  }

  function PackConsumer(p: Line<Text>): seq<Item> {
    [AddressItem(p.id), StringItem(p.capture), UintItem(p.bytes)]
  }

  function PackEntry(e: (Text, Text)): seq<Item> {
    [AddressItem(e.0), StringItem(e.1)]
  }

  function PackDelegate(d: (Text, seq<(Text, Text)>)): seq<Item> {
    [AddressItem(d.0)] + PackAll(PackEntry, d.1)
  }

  /** Packing appends: the bytes packed so far come first. */
  function PackAll<A>(pack: A -> seq<Item>, s: seq<A>): seq<Item> {
    if s == [] then [] else PackAll(pack, s[..|s| - 1]) + pack(s[|s| - 1])
  }

  /** A timestamp of 0 counts as none. */
  function HashedOf(s: Serialized, timestamp: Option<nat>): Hashed {
    Hashed(s.id, s.height,
           PackAll(PackStream, s.streams) + PackAll(PackConsumer, s.consumers) + PackAll(PackEntry, s.nodes) +
           PackAll(PackDelegate, s.delegates),
           s.treasury, if timestamp == Some(0) then None else timestamp)
  }

  method PackStreams(streams: seq<Line<Text>>) returns (pack: seq<Item>)
    ensures pack == PackAll(PackStream, streams)
  {
    pack := [];
    for i := 0 to |streams|
      invariant pack == PackAll(PackStream, streams[..i])
    {
      var p := streams[i];
      pack := pack + [StringItem(Hex.HexToStr(p.id)), StringItem(p.capture), UintItem(p.bytes)];
      assert streams[..i + 1][..i] == streams[..i];
    }
    assert streams[..|streams|] == streams;
  }

  method PackConsumers(consumers: seq<Line<Text>>, before: seq<Item>) returns (pack: seq<Item>)
    ensures pack == before + PackAll(PackConsumer, consumers)
  {
    pack := before;
    for i := 0 to |consumers|
      invariant pack == before + PackAll(PackConsumer, consumers[..i])
    {
      var p := consumers[i];
      pack := pack + [AddressItem(p.id), StringItem(p.capture), UintItem(p.bytes)];
      assert consumers[..i + 1][..i] == consumers[..i];
    }
    assert consumers[..|consumers|] == consumers;
  }

  method PackRecord(record: seq<(Text, Text)>, before: seq<Item>) returns (pack: seq<Item>)
    ensures pack == before + PackAll(PackEntry, record)
  {
    pack := before;
    for i := 0 to |record|
      invariant pack == before + PackAll(PackEntry, record[..i])
    {
      pack := pack + [AddressItem(record[i].0), StringItem(record[i].1)];
      assert record[..i + 1][..i] == record[..i];
    }
    assert record[..|record|] == record;
  }

  method PackDelegates(delegates: seq<(Text, seq<(Text, Text)>)>, before: seq<Item>) returns (pack: seq<Item>)
    ensures pack == before + PackAll(PackDelegate, delegates)
  {
    pack := before;
    for i := 0 to |delegates|
      invariant pack == before + PackAll(PackDelegate, delegates[..i])
    {
      var dPack := PackRecord(delegates[i].1, []);
      pack := pack + ([AddressItem(delegates[i].0)] + dPack);
      assert delegates[..i + 1][..i] == delegates[..i];
    }
    assert delegates[..|delegates|] == delegates;
  }

  method ToHash(payload: Payload, timestamp: Option<nat>) returns (hashed: Hashed)
    ensures hashed == HashedOf(SerializedOf(payload), timestamp)
  {
    var report := SerializedOf(payload);
    var pack := PackStreams(report.streams);
    pack := PackConsumers(report.consumers, pack);
    pack := PackRecord(report.nodes, pack);
    pack := PackDelegates(report.delegates, pack);
    hashed := Hashed(report.id, report.height, pack, report.treasury, if timestamp == Some(0) then None else timestamp);
  }

  /** Packings of equally long pieces are equal exactly when the pieces are. */
  lemma {:induction false} PackAllSameIff<A>(pack: A -> seq<Item>, s: seq<A>, t: seq<A>)
    requires |s| == |t| && forall i :: 0 <= i < |s| ==> |pack(s[i])| == |pack(t[i])|
    ensures |PackAll(pack, s)| == |PackAll(pack, t)|
    ensures PackAll(pack, s) == PackAll(pack, t) <==> forall i :: 0 <= i < |s| ==> pack(s[i]) == pack(t[i])
    decreases |s|
  {
    if s != [] {
      var n := |s| - 1;
      PackAllSameIff(pack, s[..n], t[..n]);
      AppendSameIff(PackAll(pack, s[..n]), pack(s[n]), PackAll(pack, t[..n]), pack(t[n]));
      assert forall i :: 0 <= i < n ==> s[..n][i] == s[i] && t[..n][i] == t[i];
    }
  }

  lemma AppendSameIff<A>(a: seq<A>, b: seq<A>, c: seq<A>, d: seq<A>)
    requires |a| == |c|
    ensures a + b == c + d <==> a == c && b == d
  {
    assert a == (a + b)[..|a|] && b == (a + b)[|a|..];
    assert c == (c + d)[..|c|] && d == (c + d)[|c|..];
  }

  /** The text an amount has after it was read and written. */
  lemma AmountSettlesIff(t: Text)
    requires FromText(t).Ok?
    ensures ToHexString(FromText(t).value) == t <==> IsCanonical(t)
  {
    FromTextKeepsIff(t);
  }

  lemma PackedStreamsSameIff(streams: seq<Line<Text>>)
    requires MapOrThrow(StreamIn, streams).Ok?
    ensures var again := Map(StreamOut, MapOrThrow(StreamIn, streams).value);
            && |PackAll(PackStream, streams)| == |PackAll(PackStream, again)|
            && (PackAll(PackStream, streams) == PackAll(PackStream, again) <==> CanonicalCaptures(streams))
  {
    var again := Map(StreamOut, MapOrThrow(StreamIn, streams).value);
    forall i | 0 <= i < |streams|
      ensures |PackStream(streams[i])| == |PackStream(again[i])|
      ensures PackStream(streams[i]) == PackStream(again[i]) <==> IsCanonical(streams[i].capture)
    {
      AmountSettlesIff(streams[i].capture);
      Hex.HexToStrSettles(streams[i].id);
    }
    PackAllSameIff(PackStream, streams, again);
  }

  lemma PackedConsumersSameIff(consumers: seq<Line<Text>>)
    requires MapOrThrow(ConsumerIn, consumers).Ok?
    ensures var again := Map(ConsumerOut, MapOrThrow(ConsumerIn, consumers).value);
            && |PackAll(PackConsumer, consumers)| == |PackAll(PackConsumer, again)|
            && (PackAll(PackConsumer, consumers) == PackAll(PackConsumer, again) <==> CanonicalCaptures(consumers))
  {
    var again := Map(ConsumerOut, MapOrThrow(ConsumerIn, consumers).value);
    forall i | 0 <= i < |consumers|
      ensures |PackConsumer(consumers[i])| == |PackConsumer(again[i])|
      ensures PackConsumer(consumers[i]) == PackConsumer(again[i]) <==> IsCanonical(consumers[i].capture)
    {
      AmountSettlesIff(consumers[i].capture);
    }
    PackAllSameIff(PackConsumer, consumers, again);
  }

  lemma PackedRecordSameIff(record: seq<(Text, Text)>)
    requires MapOrThrow(EntryIn, record).Ok?
    ensures var again := Map(EntryOut, MapOrThrow(EntryIn, record).value);
            && |PackAll(PackEntry, record)| == |PackAll(PackEntry, again)|
            && (PackAll(PackEntry, record) == PackAll(PackEntry, again) <==> CanonicalRecord(record))
  {
    var again := Map(EntryOut, MapOrThrow(EntryIn, record).value);
    forall i | 0 <= i < |record|
      ensures |PackEntry(record[i])| == |PackEntry(again[i])|
      ensures PackEntry(record[i]) == PackEntry(again[i]) <==> IsCanonical(record[i].1)
    {
      AmountSettlesIff(record[i].1);
    }
    PackAllSameIff(PackEntry, record, again);
  }

  lemma PackedDelegateSameIff(d: (Text, seq<(Text, Text)>))
    requires DelegateIn(d).Ok?
    ensures var again := DelegateOut(DelegateIn(d).value);
            && |PackDelegate(d)| == |PackDelegate(again)|
            && (PackDelegate(d) == PackDelegate(again) <==> CanonicalRecord(d.1))
  {
    PackedRecordSameIff(d.1);
    var again := DelegateOut(DelegateIn(d).value);
    AppendSameIff([AddressItem(d.0)], PackAll(PackEntry, d.1), [AddressItem(d.0)], PackAll(PackEntry, again.1));
  }

  lemma PackedDelegatesSameIff(delegates: seq<(Text, seq<(Text, Text)>)>)
    requires MapOrThrow(DelegateIn, delegates).Ok?
    ensures var again := Map(DelegateOut, MapOrThrow(DelegateIn, delegates).value);
            && |PackAll(PackDelegate, delegates)| == |PackAll(PackDelegate, again)|
            && (PackAll(PackDelegate, delegates) == PackAll(PackDelegate, again) <==> CanonicalDelegates(delegates))
  {
    var again := Map(DelegateOut, MapOrThrow(DelegateIn, delegates).value);
    forall i | 0 <= i < |delegates|
      ensures |PackDelegate(delegates[i])| == |PackDelegate(again[i])|
      ensures PackDelegate(delegates[i]) == PackDelegate(again[i]) <==> CanonicalRecord(delegates[i].1)
    {
      PackedDelegateSameIff(delegates[i]);
    }
    PackAllSameIff(PackDelegate, delegates, again);
  }

  /** A serialized report and the plain report read from it are hashed over the same arguments exactly when the amounts are canonical; ids do not matter. */
  lemma HashIsTheSameIff(s: Serialized, timestamp: Option<nat>)
    requires Deserialize(s).Ok?
    ensures var fromPlain := HashedOf(SerializedOf(PlainForm(Deserialize(s).value)), timestamp);
            fromPlain == HashedOf(SerializedOf(SerializedForm(s)), timestamp) <==> CanonicalAmounts(s)
  {
    SerializeOfDeserialized(s);
    var again := Serialize(Deserialize(s).value);
    AmountSettlesIff(s.treasury);
    PackedStreamsSameIff(s.streams);
    PackedConsumersSameIff(s.consumers);
    PackedRecordSameIff(s.nodes);
    PackedDelegatesSameIff(s.delegates);
    PackedPartsSameIff(s, again);
  }

  lemma PackedPartsSameIff(s: Serialized, t: Serialized)
    requires |PackAll(PackStream, s.streams)| == |PackAll(PackStream, t.streams)|
    requires |PackAll(PackConsumer, s.consumers)| == |PackAll(PackConsumer, t.consumers)|
    requires |PackAll(PackEntry, s.nodes)| == |PackAll(PackEntry, t.nodes)|
    ensures HashedOf(s, None).pack == HashedOf(t, None).pack <==>
            && PackAll(PackStream, s.streams) == PackAll(PackStream, t.streams)
            && PackAll(PackConsumer, s.consumers) == PackAll(PackConsumer, t.consumers)
            && PackAll(PackEntry, s.nodes) == PackAll(PackEntry, t.nodes)
            && PackAll(PackDelegate, s.delegates) == PackAll(PackDelegate, t.delegates)
  {
    var (a, b, c, d) := (PackAll(PackStream, s.streams), PackAll(PackConsumer, s.consumers), PackAll(PackEntry, s.nodes),
                         PackAll(PackDelegate, s.delegates));
    var (e, f, g, h) := (PackAll(PackStream, t.streams), PackAll(PackConsumer, t.consumers), PackAll(PackEntry, t.nodes),
                         PackAll(PackDelegate, t.delegates));
    AppendSameIff(a, b, e, f);
    AppendSameIff(a + b, c, e + f, g);
    AppendSameIff(a + b + c, d, e + f + g, h);
  }

  // ----- Where each part of a report stands in the packing -----

  ghost predicate PieceAt(packed: seq<Item>, start: nat, piece: seq<Item>) {
    start + |piece| <= |packed| && packed[start..start + |piece|] == piece
  }

  lemma PieceIn(before: seq<Item>, packed: seq<Item>, after: seq<Item>, start: nat, piece: seq<Item>)
    requires PieceAt(packed, start, piece)
    ensures PieceAt(before + packed + after, |before| + start, piece)
  {
    var all := before + packed + after;
    assert all[|before| + start..|before| + start + |piece|] == packed[start..start + |piece|];
  }

  /** The packing of piece `i` follows those of the pieces before it. */
  lemma {:induction false} PackAllAt<A>(pack: A -> seq<Item>, s: seq<A>, i: nat)
    requires i < |s|
    ensures PieceAt(PackAll(pack, s), |PackAll(pack, s[..i])|, pack(s[i]))
    decreases |s|
  {
    var n := |s| - 1;
    if i < n {
      PackAllAt(pack, s[..n], i);
      assert s[..n][..i] == s[..i];
      PieceIn([], PackAll(pack, s[..n]), pack(s[n]), |PackAll(pack, s[..i])|, pack(s[i]));
      assert [] + PackAll(pack, s[..n]) + pack(s[n]) == PackAll(pack, s);
    } else {
      assert s[..i] == s[..n];
    }
  }

  lemma {:induction false} PackedByThree<A>(pack: A -> seq<Item>, s: seq<A>)
    requires forall x :: x in s ==> |pack(x)| == 3
    ensures |PackAll(pack, s)| == 3 * |s|
  {
    if s != [] {
      PackedByThree(pack, s[..|s| - 1]);
      assert s[|s| - 1] in s;
    }
  }

  lemma {:induction false} PackedByTwo<A>(pack: A -> seq<Item>, s: seq<A>)
    requires forall x :: x in s ==> |pack(x)| == 2
    ensures |PackAll(pack, s)| == 2 * |s|
  {
    if s != [] {
      PackedByTwo(pack, s[..|s| - 1]);
      assert s[|s| - 1] in s;
    }
  }

  /** The items of the first `i` delegates: one for the delegate and two for each entry of its record. */
  ghost function DelegatesLength(delegates: seq<(Text, seq<(Text, Text)>)>, i: nat): nat
    requires i <= |delegates|
  {
    if i == 0 then 0 else DelegatesLength(delegates, i - 1) + 1 + 2 * |delegates[i - 1].1|
  }

  lemma {:induction false} PackedDelegatesLength(delegates: seq<(Text, seq<(Text, Text)>)>, i: nat)
    requires i <= |delegates|
    ensures |PackAll(PackDelegate, delegates[..i])| == DelegatesLength(delegates, i)
  {
    if i > 0 {
      PackedDelegatesLength(delegates, i - 1);
      assert delegates[..i][..i - 1] == delegates[..i - 1];
      PackedByTwo(PackEntry, delegates[i - 1].1);
    }
  }

  lemma StreamAt(streams: seq<Line<Text>>, i: nat)
    requires i < |streams|
    ensures PieceAt(PackAll(PackStream, streams), 3 * i,
                    [StringItem(Hex.HexToStr(streams[i].id)), StringItem(streams[i].capture), UintItem(streams[i].bytes)])
  {
    PackedByThree(PackStream, streams[..i]);
    PackAllAt(PackStream, streams, i);
  }

  lemma ConsumerAt(consumers: seq<Line<Text>>, i: nat)
    requires i < |consumers|
    ensures PieceAt(PackAll(PackConsumer, consumers), 3 * i,
                    [AddressItem(consumers[i].id), StringItem(consumers[i].capture), UintItem(consumers[i].bytes)])
  {
    PackedByThree(PackConsumer, consumers[..i]);
    PackAllAt(PackConsumer, consumers, i);
  }

  lemma EntryAt(record: seq<(Text, Text)>, i: nat)
    requires i < |record|
    ensures PieceAt(PackAll(PackEntry, record), 2 * i, [AddressItem(record[i].0), StringItem(record[i].1)])
  {
    PackedByTwo(PackEntry, record[..i]);
    PackAllAt(PackEntry, record, i);
  }

  lemma DelegateAt(delegates: seq<(Text, seq<(Text, Text)>)>, i: nat)
    requires i < |delegates|
    ensures PieceAt(PackAll(PackDelegate, delegates), DelegatesLength(delegates, i),
                    [AddressItem(delegates[i].0)] + PackAll(PackEntry, delegates[i].1))
  {
    PackedDelegatesLength(delegates, i);
    PackAllAt(PackDelegate, delegates, i);
  }

  lemma PieceOfPiece(packed: seq<Item>, start: nat, piece: seq<Item>, at: nat, part: seq<Item>)
    requires PieceAt(packed, start, piece) && PieceAt(piece, at, part)
    ensures PieceAt(packed, start + at, part)
  {
    var found := packed[start + at..start + at + |part|];
    forall k | 0 <= k < |part| ensures found[k] == part[k] {
      assert packed[start..start + |piece|][at + k] == piece[at..at + |part|][k];
    }
  }

  /** Entry `j` of a delegate's record follows the delegate's address. */
  lemma DelegateEntryAt(delegates: seq<(Text, seq<(Text, Text)>)>, i: nat, j: nat)
    requires i < |delegates| && j < |delegates[i].1|
    ensures PieceAt(PackAll(PackDelegate, delegates), DelegatesLength(delegates, i) + 1 + 2 * j,
                    [AddressItem(delegates[i].1[j].0), StringItem(delegates[i].1[j].1)])
  {
    var (d, packed, start) := (delegates[i], PackAll(PackDelegate, delegates), DelegatesLength(delegates, i));
    var entries := PackAll(PackEntry, d.1);
    var entry := [AddressItem(d.1[j].0), StringItem(d.1[j].1)];
    DelegateAt(delegates, i);
    EntryAt(d.1, j);
    PieceIn([AddressItem(d.0)], entries, [], 2 * j, entry);
    assert [AddressItem(d.0)] + entries + [] == [AddressItem(d.0)] + entries;
    PieceOfPiece(packed, start, [AddressItem(d.0)] + entries, 1 + 2 * j, entry);
  }

  lemma DelegateAddressAt(delegates: seq<(Text, seq<(Text, Text)>)>, i: nat)
    requires i < |delegates|
    ensures PieceAt(PackAll(PackDelegate, delegates), DelegatesLength(delegates, i), [AddressItem(delegates[i].0)])
  {
    DelegateAt(delegates, i);
    PieceOfPiece(PackAll(PackDelegate, delegates), DelegatesLength(delegates, i),
                 [AddressItem(delegates[i].0)] + PackAll(PackEntry, delegates[i].1), 0, [AddressItem(delegates[i].0)]);
  }

  /** Where the consumers, the nodes and the delegates begin. */
  function ConsumersStart(s: Serialized): nat {
    3 * |s.streams|
  }

  function NodesStart(s: Serialized): nat {
    ConsumersStart(s) + 3 * |s.consumers|
  }

  function DelegatesStart(s: Serialized): nat {
    NodesStart(s) + 2 * |s.nodes|
  }

  lemma FourParts<A>(a: seq<A>, b: seq<A>, c: seq<A>, d: seq<A>)
    ensures a + b + c + d == [] + a + (b + c + d)
    ensures a + b + c + d == a + b + (c + d)
    ensures a + b + c + d == (a + b + c) + d + []
  {
  }

  lemma PartLengths(s: Serialized)
    ensures |PackAll(PackStream, s.streams)| == ConsumersStart(s)
    ensures |PackAll(PackStream, s.streams) + PackAll(PackConsumer, s.consumers)| == NodesStart(s)
    ensures |PackAll(PackStream, s.streams) + PackAll(PackConsumer, s.consumers) + PackAll(PackEntry, s.nodes)| == DelegatesStart(s)
    ensures |PackAll(PackDelegate, s.delegates)| == DelegatesLength(s.delegates, |s.delegates|)
  {
    PackedByThree(PackStream, s.streams);
    PackedByThree(PackConsumer, s.consumers);
    PackedByTwo(PackEntry, s.nodes);
    PackedDelegatesLength(s.delegates, |s.delegates|);
    assert s.delegates[..|s.delegates|] == s.delegates;
  }

  lemma PartsFollow(s: Serialized, timestamp: Option<nat>)
    ensures HashedOf(s, timestamp).pack ==
            PackAll(PackStream, s.streams) + PackAll(PackConsumer, s.consumers) + PackAll(PackEntry, s.nodes) + PackAll(PackDelegate, s.delegates)
  {
  }

  /** A part of the packing, moved to its place behind the parts before it. */
  lemma PlacedPiece(s: Serialized, timestamp: Option<nat>, before: seq<Item>, packed: seq<Item>, after: seq<Item>, start: nat, piece: seq<Item>)
    requires HashedOf(s, timestamp).pack == before + packed + after && PieceAt(packed, start, piece)
    ensures PieceAt(HashedOf(s, timestamp).pack, |before| + start, piece)
  {
    PieceIn(before, packed, after, start, piece);
  }

  lemma StreamIsHashed(s: Serialized, timestamp: Option<nat>, i: nat)
    requires i < |s.streams|
    ensures PieceAt(HashedOf(s, timestamp).pack, 3 * i,
                    [StringItem(Hex.HexToStr(s.streams[i].id)), StringItem(s.streams[i].capture), UintItem(s.streams[i].bytes)])
  {
    PartsFollow(s, timestamp);
    FourParts(PackAll(PackStream, s.streams), PackAll(PackConsumer, s.consumers), PackAll(PackEntry, s.nodes), PackAll(PackDelegate, s.delegates));
    StreamAt(s.streams, i);
    PlacedPiece(s, timestamp, [], PackAll(PackStream, s.streams),
                PackAll(PackConsumer, s.consumers) + PackAll(PackEntry, s.nodes) + PackAll(PackDelegate, s.delegates), 3 * i,
                [StringItem(Hex.HexToStr(s.streams[i].id)), StringItem(s.streams[i].capture), UintItem(s.streams[i].bytes)]);
  }

  lemma ConsumerIsHashed(s: Serialized, timestamp: Option<nat>, i: nat)
    requires i < |s.consumers|
    ensures PieceAt(HashedOf(s, timestamp).pack, ConsumersStart(s) + 3 * i,
                    [AddressItem(s.consumers[i].id), StringItem(s.consumers[i].capture), UintItem(s.consumers[i].bytes)])
  {
    PartsFollow(s, timestamp);
    PartLengths(s);
    FourParts(PackAll(PackStream, s.streams), PackAll(PackConsumer, s.consumers), PackAll(PackEntry, s.nodes), PackAll(PackDelegate, s.delegates));
    ConsumerAt(s.consumers, i);
    PlacedPiece(s, timestamp, PackAll(PackStream, s.streams), PackAll(PackConsumer, s.consumers),
                PackAll(PackEntry, s.nodes) + PackAll(PackDelegate, s.delegates), 3 * i,
                [AddressItem(s.consumers[i].id), StringItem(s.consumers[i].capture), UintItem(s.consumers[i].bytes)]);
  }

  lemma NodeIsHashed(s: Serialized, timestamp: Option<nat>, i: nat)
    requires i < |s.nodes|
    ensures PieceAt(HashedOf(s, timestamp).pack, NodesStart(s) + 2 * i, [AddressItem(s.nodes[i].0), StringItem(s.nodes[i].1)])
  {
    PartsFollow(s, timestamp);
    PartLengths(s);
    EntryAt(s.nodes, i);
    PlacedPiece(s, timestamp, PackAll(PackStream, s.streams) + PackAll(PackConsumer, s.consumers), PackAll(PackEntry, s.nodes),
                PackAll(PackDelegate, s.delegates), 2 * i, [AddressItem(s.nodes[i].0), StringItem(s.nodes[i].1)]);
  }

  lemma PlacedDelegatePiece(s: Serialized, timestamp: Option<nat>, start: nat, piece: seq<Item>)
    requires PieceAt(PackAll(PackDelegate, s.delegates), start, piece)
    ensures PieceAt(HashedOf(s, timestamp).pack, DelegatesStart(s) + start, piece)
  {
    var before := PackAll(PackStream, s.streams) + PackAll(PackConsumer, s.consumers) + PackAll(PackEntry, s.nodes);
    PartsFollow(s, timestamp);
    PartLengths(s);
    assert before + PackAll(PackDelegate, s.delegates) + [] == before + PackAll(PackDelegate, s.delegates);
    PlacedPiece(s, timestamp, before, PackAll(PackDelegate, s.delegates), [], start, piece);
  }

  lemma DelegateIsHashed(s: Serialized, timestamp: Option<nat>, i: nat)
    requires i < |s.delegates|
    ensures PieceAt(HashedOf(s, timestamp).pack, DelegatesStart(s) + DelegatesLength(s.delegates, i), [AddressItem(s.delegates[i].0)])
  {
    DelegateAddressAt(s.delegates, i);
    PlacedDelegatePiece(s, timestamp, DelegatesLength(s.delegates, i), [AddressItem(s.delegates[i].0)]);
  }

  lemma DelegateEntryIsHashed(s: Serialized, timestamp: Option<nat>, i: nat, j: nat)
    requires i < |s.delegates| && j < |s.delegates[i].1|
    ensures PieceAt(HashedOf(s, timestamp).pack, DelegatesStart(s) + DelegatesLength(s.delegates, i) + 1 + 2 * j,
                    [AddressItem(s.delegates[i].1[j].0), StringItem(s.delegates[i].1[j].1)])
  {
    DelegateEntryAt(s.delegates, i, j);
    PlacedDelegatePiece(s, timestamp, DelegatesLength(s.delegates, i) + 1 + 2 * j,
                        [AddressItem(s.delegates[i].1[j].0), StringItem(s.delegates[i].1[j].1)]);
  }

  /** Besides the packing, which holds nothing else, the id, the height and the treasury are hashed; a timestamp of 0 is dropped. */
  lemma HashedFields(s: Serialized, timestamp: Option<nat>)
    ensures var h := HashedOf(s, timestamp);
            && h.id == s.id && h.height == s.height && h.treasury == s.treasury
            && (h.timestamp == None <==> timestamp.GetOr(0) == 0) && (h.timestamp.Some? ==> h.timestamp == timestamp)
            && |h.pack| == DelegatesStart(s) + DelegatesLength(s.delegates, |s.delegates|)
  {
    PartsFollow(s, timestamp);
    PartLengths(s);
  }
}
