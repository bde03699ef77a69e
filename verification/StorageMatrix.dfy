/** Which node stores which message with which hash, and the two verdicts a client draws from it. */
module StorageMatrix {
  import opened Prelude

  /** A query response: the publisher and its message ids with their hashes, in map order. */
  datatype Response = Response(publisherId: Text, hashMap: seq<(Text, Text)>)

  datatype Entry = Entry(nodeAddress: Text, messageHash: Text)

  /**
   A JavaScript `Set` of freshly built object literals never finds two of them equal,
   so each id keeps one entry for every response that lists it.
   */
  type Matrix = map<Text, seq<Entry>>

  /** The entries one response contributes for `id`. */
  function EntriesIn(publisherId: Text, hashMap: seq<(Text, Text)>, id: Text): seq<Entry> {
    if hashMap == [] then []
    else
      var last := hashMap[|hashMap| - 1];
      EntriesIn(publisherId, hashMap[..|hashMap| - 1], id) +
      if last.0 == id then [Entry(publisherId, last.1)] else []
  }

  /** All entries for `id`, in the order of the responses. */
  function EntriesFor(responses: seq<Response>, id: Text): seq<Entry> {
    if responses == [] then []
    else
      var last := responses[|responses| - 1];
      EntriesFor(responses[..|responses| - 1], id) + EntriesIn(last.publisherId, last.hashMap, id)
  }

  function Nodes(matrix: Matrix, id: Text): seq<Entry> {
    if id in matrix then matrix[id] else []
  }

  ghost predicate NoEmptyRow(matrix: Matrix) {
    forall id :: id in matrix ==> matrix[id] != []
  }

  ghost predicate IsMatrixOf(matrix: Matrix, responses: seq<Response>) {
    && NoEmptyRow(matrix)
    && forall id :: Nodes(matrix, id) == EntriesFor(responses, id)
  }

  lemma EntriesInNext(publisherId: Text, hashMap: seq<(Text, Text)>, j: nat, id: Text)
    requires j < |hashMap|
    ensures EntriesIn(publisherId, hashMap[..j + 1], id) ==
            EntriesIn(publisherId, hashMap[..j], id) +
            if hashMap[j].0 == id then [Entry(publisherId, hashMap[j].1)] else []
  {
    assert hashMap[..j + 1][..j] == hashMap[..j];
  }

  function Put(matrix: Matrix, id: Text, entry: Entry): (r: Matrix)
    requires NoEmptyRow(matrix)
    ensures NoEmptyRow(r)
    ensures forall other :: Nodes(r, other) == Nodes(matrix, other) + if other == id then [entry] else []
  {
    matrix[id := Nodes(matrix, id) + [entry]]
  }

  ghost predicate Extends(r: Matrix, matrix: Matrix, publisherId: Text, hashMap: seq<(Text, Text)>) {
    forall id :: Nodes(r, id) == Nodes(matrix, id) + EntriesIn(publisherId, hashMap, id)
  }

  lemma PutExtendsRow(row: seq<Entry>, before: seq<Entry>, publisherId: Text, hashMap: seq<(Text, Text)>, j: nat, id: Text)
    requires j < |hashMap| && row == before + EntriesIn(publisherId, hashMap[..j], id)
    ensures row + (if hashMap[j].0 == id then [Entry(publisherId, hashMap[j].1)] else []) ==
            before + EntriesIn(publisherId, hashMap[..j + 1], id)
  {
    EntriesInNext(publisherId, hashMap, j, id);
  }

  lemma PutExtends(r: Matrix, matrix: Matrix, publisherId: Text, hashMap: seq<(Text, Text)>, j: nat)
    requires j < |hashMap| && NoEmptyRow(r) && Extends(r, matrix, publisherId, hashMap[..j])
    ensures Extends(Put(r, hashMap[j].0, Entry(publisherId, hashMap[j].1)), matrix, publisherId, hashMap[..j + 1])
  {
    forall id
      ensures Nodes(Put(r, hashMap[j].0, Entry(publisherId, hashMap[j].1)), id) ==
              Nodes(matrix, id) + EntriesIn(publisherId, hashMap[..j + 1], id)
    {
      PutExtendsRow(Nodes(r, id), Nodes(matrix, id), publisherId, hashMap, j, id);
    }
  }

  /** The inner loop: the entries of one response. */
  method AddResponse(matrix: Matrix, response: Response) returns (r: Matrix)
    requires NoEmptyRow(matrix)
    ensures NoEmptyRow(r) && Extends(r, matrix, response.publisherId, response.hashMap)
  {
    r := matrix;
    for j := 0 to |response.hashMap|
      invariant NoEmptyRow(r) && Extends(r, matrix, response.publisherId, response.hashMap[..j])
    {
      var (id, hash) := response.hashMap[j];
      PutExtends(r, matrix, response.publisherId, response.hashMap, j);
      r := Put(r, id, Entry(response.publisherId, hash));
    }
    assert response.hashMap[..|response.hashMap|] == response.hashMap;
  }

  method ConvertToStorageMatrix(responses: seq<Response>) returns (matrix: Matrix)
    ensures IsMatrixOf(matrix, responses)
  {
    matrix := map[];
    for i := 0 to |responses|
      invariant IsMatrixOf(matrix, responses[..i])
    {
      assert responses[..i + 1][..i] == responses[..i];
      matrix := AddResponse(matrix, responses[i]);
    }
    assert responses[..|responses|] == responses;
  }

  ghost predicate SameHash(nodes: seq<Entry>) {
    forall a, b :: a in nodes && b in nodes ==> a.messageHash == b.messageHash
  }

  /** The verdict walks over the ids in some order and stops at the first conflict. */
  method NodesAgreeOnStorageMatrix(matrix: Matrix) returns (agree: bool)
    ensures agree <==> forall id :: id in matrix ==> SameHash(matrix[id])
  {
    var todo := matrix.Keys;
    while todo != {}
      invariant todo <= matrix.Keys
      invariant forall id :: id in matrix && id !in todo ==> SameHash(matrix[id])
    {
      var id :| id in todo;
      todo := todo - {id};
      var nodes := matrix[id];
      if |nodes| == 1 {
        continue;
      }
      for k := 0 to |nodes|
        invariant forall m :: 0 <= m < k ==> nodes[m].messageHash == nodes[0].messageHash
      {
        if nodes[k].messageHash != nodes[0].messageHash {
          assert nodes[k] in nodes && nodes[0] in nodes && !SameHash(matrix[id]);
          return false;
        }
      }
    }
    return true;
  }

  /** Every id of the HTTP response is listed by some node. */
  method VerifyMessagePresence(messageIds: seq<Text>, matrix: Matrix) returns (present: bool)
    ensures present <==> forall k :: 0 <= k < |messageIds| ==> Nodes(matrix, messageIds[k]) != []
  {
    var counts: map<Text, nat> := map id | id in matrix :: |matrix[id]|;
    for k := 0 to |messageIds|
      invariant forall m :: 0 <= m < k ==> Nodes(matrix, messageIds[m]) != []
    {
      var count := if messageIds[k] in counts then counts[messageIds[k]] else 0;
      if count == 0 {
        return false;
      }
    }
    return true;
  }

  // ----- What the verdicts mean for the responses themselves -----

  ghost predicate Lists(response: Response, id: Text, hash: Text) {
    (id, hash) in response.hashMap
  }

  lemma {:induction false} EntriesInMeans(publisherId: Text, hashMap: seq<(Text, Text)>, id: Text, e: Entry)
    ensures e in EntriesIn(publisherId, hashMap, id) <==> e.nodeAddress == publisherId && (id, e.messageHash) in hashMap
  {
    if hashMap != [] {
      var n := |hashMap| - 1;
      EntriesInMeans(publisherId, hashMap[..n], id, e);
      assert hashMap == hashMap[..n] + [hashMap[n]];
    }
  }

  lemma {:induction false} EntriesForMeans(responses: seq<Response>, id: Text, e: Entry)
    ensures e in EntriesFor(responses, id) <==>
            exists r :: r in responses && r.publisherId == e.nodeAddress && Lists(r, id, e.messageHash)
  {
    if responses != [] {
      var n := |responses| - 1;
      EntriesForMeans(responses[..n], id, e);
      EntriesInMeans(responses[n].publisherId, responses[n].hashMap, id, e);
      assert responses == responses[..n] + [responses[n]];
    }
  }

  /** Any two responses that list a message id list the same hash for it. */
  ghost predicate NoConflict(responses: set<Response>) {
    forall a, b, id, h, k :: a in responses && b in responses && Lists(a, id, h) && Lists(b, id, k) ==> h == k
  }

  function AsSet<T>(s: seq<T>): set<T> {
    set x | x in s
  }

  lemma AgreementMeansNoConflict(responses: seq<Response>, matrix: Matrix)
    requires IsMatrixOf(matrix, responses)
    ensures (forall id :: id in matrix ==> SameHash(matrix[id])) <==> NoConflict(AsSet(responses))
  {
    forall id, e ensures e in EntriesFor(responses, id) <==>
                         exists r :: r in responses && r.publisherId == e.nodeAddress && Lists(r, id, e.messageHash) {
      EntriesForMeans(responses, id, e);
    }
    if forall id :: id in matrix ==> SameHash(matrix[id]) {
      forall a, b, id, h, k | a in responses && b in responses && Lists(a, id, h) && Lists(b, id, k)
        ensures h == k
      {
        var ea, eb := Entry(a.publisherId, h), Entry(b.publisherId, k);
        assert ea in EntriesFor(responses, id) && eb in EntriesFor(responses, id);
        assert SameHash(matrix[id]);
      }
    }
    if NoConflict(AsSet(responses)) {
      forall id, a, b | id in matrix && a in matrix[id] && b in matrix[id]
        ensures a.messageHash == b.messageHash
      {
        assert a in EntriesFor(responses, id) && b in EntriesFor(responses, id);
        var ra :| ra in responses && ra.publisherId == a.nodeAddress && Lists(ra, id, a.messageHash);
        var rb :| rb in responses && rb.publisherId == b.nodeAddress && Lists(rb, id, b.messageHash);
      }
    }
  }

  lemma PresenceMeansListed(responses: seq<Response>, matrix: Matrix, id: Text)
    requires IsMatrixOf(matrix, responses)
    ensures Nodes(matrix, id) != [] <==> exists r, hash :: r in AsSet(responses) && Lists(r, id, hash)
  {
    if Nodes(matrix, id) != [] {
      var e := EntriesFor(responses, id)[0];
      EntriesForMeans(responses, id, e);
    }
    if r, hash :| r in responses && Lists(r, id, hash) {
      EntriesForMeans(responses, id, Entry(r.publisherId, hash));
    }
  }

  /** Both verdicts depend only on which responses arrived, not on their order or on repetitions. */
  lemma VerdictsIgnoreOrderAndRepeats(first: seq<Response>, second: seq<Response>, m1: Matrix, m2: Matrix)
    requires AsSet(first) == AsSet(second)
    requires IsMatrixOf(m1, first) && IsMatrixOf(m2, second)
    ensures (forall id :: id in m1 ==> SameHash(m1[id])) <==> (forall id :: id in m2 ==> SameHash(m2[id]))
    ensures forall id :: Nodes(m1, id) != [] <==> Nodes(m2, id) != []
  {
    AgreementMeansNoConflict(first, m1);
    AgreementMeansNoConflict(second, m2);
    forall id ensures Nodes(m1, id) != [] <==> Nodes(m2, id) != [] {
      PresenceMeansListed(first, m1, id);
      PresenceMeansListed(second, m2, id);
    }
  }
}
