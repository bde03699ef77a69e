/** The parallel arrays a report is handed to the contract in. */
module ReportContract {
  import opened Prelude
  import opened BigNumbers
  import opened Report
  import Hex

  /** Parallel arrays, as the contract takes them. */
  datatype Contract = Contract(
    id: Text, height: nat,
    streams: seq<Text>, writeCaptureAmounts: seq<int>, writeBytes: seq<nat>,
    readConsumerAddresses: seq<Text>, readCaptureAmounts: seq<int>, readBytes: seq<nat>,
    nodes: seq<Text>, nodeChanges: seq<int>,
    delegates: seq<Text>, delegateNodes: seq<seq<Text>>, delegateNodeChanges: seq<seq<int>>,
    treasurySupplyChange: int)

  function Keys<V>(record: seq<(Text, V)>): seq<Text> {
    Map((e: (Text, V)) => e.0, record)
  }

  function Changes(record: seq<(Text, BigNumber)>): seq<int> {
    Map((e: (Text, BigNumber)) => IntOf(e.1), record)
  }

  function Ids(lines: seq<Line<BigNumber>>): seq<Text> {
    Map((p: Line<BigNumber>) => p.id, lines)
  }

  function Captures(lines: seq<Line<BigNumber>>): seq<int> {
    Map((p: Line<BigNumber>) => IntOf(p.capture), lines)
  }

  function Sizes(lines: seq<Line<BigNumber>>): seq<nat> {
    Map((p: Line<BigNumber>) => p.bytes, lines)
  }

  function ContractOf(r: Plain): Contract {
    Contract(
      r.id, r.height,
      Ids(r.streams), Captures(r.streams), Sizes(r.streams),
      Ids(r.consumers), Captures(r.consumers), Sizes(r.consumers),
      Keys(r.nodes), Changes(r.nodes),
      Keys(r.delegates),
      Map((d: (Text, seq<(Text, BigNumber)>)) => Keys(d.1), r.delegates),
      Map((d: (Text, seq<(Text, BigNumber)>)) => Changes(d.1), r.delegates),
      IntOf(r.treasury))
  }

  function ToContract(payload: Payload): Result<Contract> {
    var report :- PlainOf(payload);
    Ok(ContractOf(report))
  }

  /** Arrays that belong together have the same length. */
  predicate Aligned(c: Contract) {
    && |c.streams| == |c.writeCaptureAmounts| == |c.writeBytes|
    && |c.readConsumerAddresses| == |c.readCaptureAmounts| == |c.readBytes|
    && |c.nodes| == |c.nodeChanges|
    && |c.delegates| == |c.delegateNodes| == |c.delegateNodeChanges|
    && forall i :: 0 <= i < |c.delegates| ==> |c.delegateNodes[i]| == |c.delegateNodeChanges[i]|
  }

  function ZipLines(ids: seq<Text>, captures: seq<int>, bytes: seq<nat>): seq<Line<int>>
    requires |ids| == |captures| == |bytes|
  {
    seq(|ids|, i requires 0 <= i < |ids| => Line(ids[i], captures[i], bytes[i]))
  }

  function ZipRecord(keys: seq<Text>, values: seq<int>): seq<(Text, int)>
    requires |keys| == |values|
  {
    seq(|keys|, i requires 0 <= i < |keys| => (keys[i], values[i]))
  }

  /** The report a contract can rebuild from its arrays; events do not reach it. */
  function Rebuilt(c: Contract): Report<int>
    requires Aligned(c)
  {
    Report(c.id, c.height, c.treasurySupplyChange,
           ZipLines(c.streams, c.writeCaptureAmounts, c.writeBytes),
           ZipLines(c.readConsumerAddresses, c.readCaptureAmounts, c.readBytes),
           ZipRecord(c.nodes, c.nodeChanges),
           seq(|c.delegates|, i requires 0 <= i < |c.delegates| =>
             (c.delegates[i], ZipRecord(c.delegateNodes[i], c.delegateNodeChanges[i]))),
           None)
  }

  function RecordInts(record: seq<(Text, BigNumber)>): seq<(Text, int)> {
    Map((e: (Text, BigNumber)) => (e.0, IntOf(e.1)), record)
  }

  function LinesInts(lines: seq<Line<BigNumber>>): seq<Line<int>> {
    Map((p: Line<BigNumber>) => Line(p.id, IntOf(p.capture), p.bytes), lines)
  }

  /** The signed part of a report, with its amounts as integers. */
  function Ints(r: Plain): Report<int> {
    Report(r.id, r.height, IntOf(r.treasury), LinesInts(r.streams), LinesInts(r.consumers), RecordInts(r.nodes),
           Map((d: (Text, seq<(Text, BigNumber)>)) => (d.0, RecordInts(d.1)), r.delegates), None)
  }

  lemma RecordRebuilt(record: seq<(Text, BigNumber)>)
    ensures |Keys(record)| == |Changes(record)| && ZipRecord(Keys(record), Changes(record)) == RecordInts(record)
  {
  }

  lemma DelegatesRebuilt(r: Plain)
    requires Aligned(ContractOf(r))
    ensures Rebuilt(ContractOf(r)).delegates == Ints(r).delegates
  {
    var c := ContractOf(r);
    forall i | 0 <= i < |r.delegates| ensures Rebuilt(c).delegates[i] == Ints(r).delegates[i] {
      RecordRebuilt(r.delegates[i].1);
    }
  }

  lemma ContractIsAligned(r: Plain)
    ensures Aligned(ContractOf(r))
  {
    var c := ContractOf(r);
    forall i | 0 <= i < |r.delegates| ensures |c.delegateNodes[i]| == |c.delegateNodeChanges[i]| {
      RecordRebuilt(r.delegates[i].1);
    }
  }

  /** Streams, consumers, nodes and delegates can be rebuilt from the parallel arrays. */
  lemma ContractRebuildsReport(r: Plain)
    ensures Aligned(ContractOf(r)) && Rebuilt(ContractOf(r)) == Ints(r)
  {
    ContractIsAligned(r);
    DelegatesRebuilt(r);
    RecordRebuilt(r.nodes);
    assert Rebuilt(ContractOf(r)).streams == Ints(r).streams;
    assert Rebuilt(ContractOf(r)).consumers == Ints(r).consumers;
  }

  lemma LinesOfRepaired(lines: seq<Line<BigNumber>>)
    ensures Captures(Map(RepairedLine, lines)) == Captures(lines)
    ensures Sizes(Map(RepairedLine, lines)) == Sizes(lines)
    ensures Ids(Map(RepairedLine, lines)) == Ids(lines) <==> StreamIdsWellFormed(lines)
  {
    var (before, after) := (Ids(lines), Ids(Map(RepairedLine, lines)));
    forall i | 0 <= i < |lines| ensures after[i] == before[i] <==> Hex.WellFormed(lines[i].id) {
      Hex.RepairedIff(lines[i].id);
    }
    assert after == before <==> forall i :: 0 <= i < |lines| ==> after[i] == before[i];
  }

  /** Both forms of a report give the same contract call exactly when the stream ids are texts UTF-8 can carry. */
  lemma ContractIsTheSameIff(r: Plain)
    ensures ToContract(SerializedForm(Serialize(r))) == ToContract(PlainForm(r)) <==> StreamIdsWellFormed(r.streams)
  {
    DeserializeUndoesSerialize(r);
    LinesOfRepaired(r.streams);
  }
}
