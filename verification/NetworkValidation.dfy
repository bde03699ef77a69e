/** When a client has collected enough, and what its verdicts say about the messages it heard. */
module NetworkValidation {
  import opened Prelude
  import opened MessagePools
  import opened QueryInput
  import P = Propagates
  import M = StorageMatrix

  /** A JavaScript `Map` as a map. */
  function EntriesMap(entries: seq<(Text, Text)>): (m: map<Text, Text>)
    ensures forall key :: key in m <==> exists i :: 0 <= i < |entries| && entries[i].0 == key
  {
    if entries == [] then map[]
    else
      var last := entries[|entries| - 1];
      EntriesMap(entries[..|entries| - 1])[last.0 := last.1]
  }

  function ToResponse(r: Received): P.Response
    requires r.message.QueryResponse?
  {
    P.Response(r.publisherId, EntriesMap(r.message.hashMap))
  }

  function ToResponses(rs: seq<Received>): (responses: seq<P.Response>)
    requires AllOf(rs, Responses)
    ensures |responses| == |rs| && forall i :: 0 <= i < |rs| ==> responses[i] == ToResponse(rs[i])
  {
    seq(|rs|, i requires 0 <= i < |rs| => ToResponse(rs[i]))
  }

  function ToPropagates(rs: seq<Received>): (propagates: seq<P.Propagate>)
    requires AllOf(rs, Propagates)
    ensures |propagates| == |rs|
    ensures forall i :: 0 <= i < |rs| ==> propagates[i] == P.Propagate(rs[i].publisherId, rs[i].message.payload)
  {
    seq(|rs|, i requires 0 <= i < |rs| => P.Propagate(rs[i].publisherId, rs[i].message.payload))
  }

  ghost predicate AllOf(rs: seq<Received>, kind: Kind) {
    forall i :: 0 <= i < |rs| ==> IsOf(rs[i], kind)
  }

  // ----- Completion -----

  /** The response answers a request of that node. */
  predicate IsFor(r: Received, node: Text) {
    if r.message.QueryResponse? then r.message.requestPublisherId == node else RequesterOf(r) == node
  }

  /** The first response to a request of the request's own publisher. */
  function Primary(responses: seq<Received>, request: Received): (r: Option<Received>)
    ensures r.Some? ==> r.value in responses && IsFor(r.value, request.publisherId)
    ensures r.None? ==> forall s :: s in responses ==> !IsFor(s, request.publisherId)
  {
    if responses == [] then None
    else if RequesterOf(responses[0]) == request.publisherId then Some(responses[0])
    else Primary(responses[1..], request)
  }

  function Secondaries(responses: seq<Received>, request: Received): (rs: seq<Received>)
    ensures forall r :: r in rs <==> r in responses && !IsFor(r, request.publisherId)
    ensures AllOf(responses, Responses) ==> AllOf(rs, Responses)
  {
    if responses == [] then []
    else
      var rest := Secondaries(responses[1..], request);
      if RequesterOf(responses[0]) != request.publisherId then [responses[0]] + rest else rest
  }

  predicate Responded(responses: seq<Received>, address: Text) {
    exists i :: 0 <= i < |responses| && responses[i].publisherId == address
  }

  /** The node is an address, and a response was published under it in lower case. */
  ghost predicate HasAnswered(responses: seq<Received>, node: Text) {
    P.SameAddress(node, node) && exists r :: r in responses && r.publisherId == P.Lower(node)
  }

  lemma AnsweredIff(responses: seq<Received>, node: Text)
    ensures HasAnswered(responses, node) <==> P.IsAddress(node) && Responded(responses, P.Lower(node))
  {
    P.AddressesAre(node);
    if r :| r in responses && r.publisherId == P.Lower(node) {
      var i :| 0 <= i < |responses| && responses[i] == r;
    }
  }

  /** `every` stops at the first node without a response, so a malformed address after it goes unnoticed. */
  function GotResponseFromAll(expected: seq<Text>, responses: seq<Received>): (r: Result<bool>)
    ensures r == Ok(true) <==> forall n :: n in expected ==> HasAnswered(responses, n)
  {
    if expected == [] then Ok(true)
    else
      AnsweredIff(responses, expected[0]);
      var address :- P.ToEthereumAddress(expected[0]);
      if Responded(responses, address) then GotResponseFromAll(expected[1..], responses) else Ok(false)
  }

  predicate AllAddressed(responses: seq<P.Response>) {
    forall r :: r in responses ==> P.IsAddress(r.publisherId)
  }

  predicate NothingMissing(secondary: seq<P.Response>, primary: P.Response, propagates: seq<P.Propagate>)
    requires AllAddressed(secondary)
  {
    var missing := P.Remaining(P.Expected(secondary, primary), propagates);
    forall a :: a in missing ==> missing[a] == {}
  }

  /** Whether the pools complete the collection; what is not there yet only delays the answer. */
  function IsDone(expected: seq<Text>, request: Received, responses: seq<Received>, propagates: seq<Received>): Result<bool>
    requires AllOf(responses, Responses) && AllOf(propagates, Propagates)
  {
    var got :- GotResponseFromAll(expected, responses);
    var primary := Primary(responses, request);
    if !got || primary.None? then Ok(false)
    else
      var secondary := ToResponses(Secondaries(responses, request));
      if !AllAddressed(secondary) then Thrown("not an Ethereum address")
      else if P.Handled(ToPropagates(propagates)) < |propagates| then Thrown("not an Ethereum address")
      else Ok(NothingMissing(secondary, ToResponse(primary.value), ToPropagates(propagates)))
  }

  /** No address among the publishers is malformed. */
  ghost predicate WellAddressed(rs: seq<Received>) {
    forall r :: r in rs ==> P.IsAddress(r.publisherId)
  }

  lemma HandledAll(propagates: seq<P.Propagate>)
    ensures P.Handled(propagates) == |propagates| <==> forall p :: p in propagates ==> P.IsAddress(p.publisherId)
  {
  }

  lemma PropagatesWellAddressed(rs: seq<Received>)
    requires AllOf(rs, Propagates)
    ensures P.Handled(ToPropagates(rs)) == |rs| <==> WellAddressed(rs)
  {
    var propagates := ToPropagates(rs);
    HandledAll(propagates);
    if WellAddressed(rs) {
      forall p | p in propagates ensures P.IsAddress(p.publisherId) {
        var i :| 0 <= i < |rs| && propagates[i] == p;
        assert rs[i] in rs;
      }
    }
    if forall p :: p in propagates ==> P.IsAddress(p.publisherId) {
      forall r | r in rs ensures P.IsAddress(r.publisherId) {
        var i :| 0 <= i < |rs| && rs[i] == r;
        assert propagates[i] in propagates;
      }
    }
  }

  lemma ResponsesWellAddressed(rs: seq<Received>)
    requires AllOf(rs, Responses)
    ensures AllAddressed(ToResponses(rs)) <==> WellAddressed(rs)
  {
    var responses := ToResponses(rs);
    if AllAddressed(responses) {
      forall r | r in rs ensures P.IsAddress(r.publisherId) {
        var i :| 0 <= i < |rs| && rs[i] == r;
        assert responses[i] in responses;
      }
    }
    if WellAddressed(rs) {
      forall r | r in responses ensures P.IsAddress(r.publisherId) {
        var i :| 0 <= i < |rs| && responses[i] == r;
        assert rs[i] in rs;
      }
    }
  }

  lemma NothingMissingMeans(secondary: seq<P.Response>, primary: P.Response, propagates: seq<P.Propagate>)
    requires AllAddressed(secondary)
    ensures NothingMissing(secondary, primary, propagates) <==>
            !exists k: nat, id :: P.Owed(secondary, primary, propagates, k, id)
  {
    P.NothingMissingMeansNothingOwed(secondary, primary, propagates);
    assert P.Remaining(P.Expected(secondary, primary), propagates).Keys == P.Expected(secondary, primary).Keys;
  }

  /** Everybody who should has answered, and every publisher address that is looked at is one. */
  ghost predicate Settled(expected: seq<Text>, request: Received, responses: seq<Received>, propagates: seq<Received>) {
    && (forall n :: n in expected ==> HasAnswered(responses, n))
    && Primary(responses, request).Some?
    && WellAddressed(Secondaries(responses, request)) && WellAddressed(propagates)
  }

  lemma DoneNeedsSettled(expected: seq<Text>, request: Received, responses: seq<Received>, propagates: seq<Received>)
    requires AllOf(responses, Responses) && AllOf(propagates, Propagates)
    ensures IsDone(expected, request, responses, propagates) == Ok(true) ==> Settled(expected, request, responses, propagates)
    ensures Settled(expected, request, responses, propagates) ==>
              && AllAddressed(ToResponses(Secondaries(responses, request)))
              && IsDone(expected, request, responses, propagates) ==
                 Ok(NothingMissing(ToResponses(Secondaries(responses, request)), ToResponse(Primary(responses, request).value),
                                   ToPropagates(propagates)))
  {
    ResponsesWellAddressed(Secondaries(responses, request));
    PropagatesWellAddressed(propagates);
  }

  /** The collection is done exactly when all nodes answered, the primary among them, and nobody owes the primary a message. */
  lemma DoneMeans(expected: seq<Text>, request: Received, responses: seq<Received>, propagates: seq<Received>)
    requires AllOf(responses, Responses) && AllOf(propagates, Propagates)
    ensures IsDone(expected, request, responses, propagates) == Ok(true) <==>
            && Settled(expected, request, responses, propagates)
            && !exists k: nat, id :: P.Owed(ToResponses(Secondaries(responses, request)),
                                            ToResponse(Primary(responses, request).value), ToPropagates(propagates), k, id)
  {
    DoneNeedsSettled(expected, request, responses, propagates);
    if Settled(expected, request, responses, propagates) {
      NothingMissingMeans(ToResponses(Secondaries(responses, request)), ToResponse(Primary(responses, request).value), ToPropagates(propagates));
    }
  }

  ghost predicate KindsRight(s: State) {
    && AllOf(s.responses.kept, Responses) && AllOf(s.propagates.kept, Propagates)
    && (s.responses.latest.Some? ==> IsOf(s.responses.latest.value, Responses))
    && (s.propagates.latest.Some? ==> IsOf(s.propagates.latest.value, Propagates))
  }

  lemma EmitBothKinds(s: State)
    requires KindsRight(s)
    ensures KindsRight(s.EmitBoth())
  {
  }

  lemma ShrinkKinds(rs: seq<Received>, id: Text, kind: Kind)
    requires AllOf(rs, kind)
    ensures AllOf(WithId(rs, id), kind)
  {
    var kept := WithId(rs, id);
    assert forall i :: 0 <= i < |kept| ==> kept[i] in kept;
  }

  lemma FlagKinds(input: Input, s: State)
    requires KindsRight(s)
    ensures KindsRight(s.Flag(input))
  {
  }

  lemma StepKinds(input: Input, s: State, e: Event)
    requires KindsRight(s)
    ensures KindsRight(Step(input, s, e))
  {
    match e
    case Arrives(r) =>
      FlagKinds(input, s.(request := Some(r)));
      EmitBothKinds(s.(request := Some(r)).Flag(input));
    case NodeAddress(address) =>
      FlagKinds(input, s.(known := s.known.(node := Some(address))));
      EmitBothKinds(s.(known := s.known.(node := Some(address))).Flag(input));
    case RequestId(id) =>
      var flagged := s.(known := s.known.(requestId := Some(id))).Flag(input);
      FlagKinds(input, s.(known := s.known.(requestId := Some(id))));
      EmitBothKinds(flagged);
      ShrinkKinds(flagged.EmitBoth().responses.kept, id, Responses);
      ShrinkKinds(flagged.EmitBoth().propagates.kept, id, Propagates);
  }

  lemma {:induction false} RunKinds(input: Input, events: seq<Event>)
    requires IsRun(input, events)
    ensures KindsRight(Run(input, events))
  {
    if events != [] {
      RunKinds(input, events[..|events| - 1]);
      StepKinds(input, Run(input, events[..|events| - 1]), events[|events| - 1]);
    }
  }

  lemma {:induction false} PrimaryOfMore(responses: seq<Received>, more: seq<Received>, request: Received)
    requires responses <= more && Primary(responses, request).Some?
    ensures Primary(more, request) == Primary(responses, request)
    decreases |responses|
  {
    if RequesterOf(responses[0]) != request.publisherId {
      PrimaryOfMore(responses[1..], more[1..], request);
    }
  }

  /** Unless the HTTP request id arrives, pools are only appended to. */
  lemma PoolGrows(input: Input, s: State, e: Event)
    requires !e.RequestId?
    ensures s.responses.kept <= Step(input, s, e).responses.kept
  {
  }

  ghost function RunOn(input: Input, s: State, events: seq<Event>): State
    decreases |events|
  {
    if events == [] then s else RunOn(input, Step(input, s, events[0]), events[1..])
  }

  /**
   The program keeps the first primary response it finds. After the HTTP request id has arrived, which it does once,
   that is the one an evaluation on the current pool finds, however long the run goes on.
   */
  lemma {:induction false} PrimaryIsKept(input: Input, s: State, events: seq<Event>, request: Received)
    requires RequestIdIsPast(events) && Primary(s.responses.kept, request).Some?
    ensures Primary(RunOn(input, s, events).responses.kept, request) == Primary(s.responses.kept, request)
    decreases |events|
  {
    if events != [] {
      var next := Step(input, s, events[0]);
      PoolGrows(input, s, events[0]);
      PrimaryOfMore(s.responses.kept, next.responses.kept, request);
      PrimaryIsKept(input, next, events[1..], request);
    }
  }

  predicate RequestIdIsPast(events: seq<Event>) {
    forall i :: 0 <= i < |events| ==> !events[i].RequestId?
  }

  lemma NoSecondaries(responses: seq<Received>, request: Received)
    requires forall r :: r in responses ==> RequesterOf(r) == request.publisherId
    ensures Secondaries(responses, request) == []
  {
    var rs := Secondaries(responses, request);
    assert forall i :: 0 <= i < |rs| ==> rs[i] in rs;
  }

  /**
   As the streams are wired, every pooled response names the query node as its requester, and so does the
   request: there are no secondary responses, so the collection does not wait for any propagate.
   */
  lemma CompletionAsWired(input: Input, events: seq<Event>, request: Received, expected: seq<Text>)
    requires IsRun(input, events) && !Run(input, events).failed
    requires Run(input, events).known.node == Some(request.publisherId)
    ensures var s := Run(input, events);
            && AllOf(s.responses.kept, Responses) && AllOf(s.propagates.kept, Propagates)
            && Secondaries(s.responses.kept, request) == []
            && (IsDone(expected, request, s.responses.kept, s.propagates.kept) == Ok(true) <==>
                && s.responses.kept != [] && WellAddressed(s.propagates.kept)
                && forall n :: n in expected ==> HasAnswered(s.responses.kept, n))
  {
    var s := Run(input, events);
    RunKeeps(input, events);
    assert KindSound(s, Responses, events);
    RunKinds(input, events);
    NoSecondaries(s.responses.kept, request);
    DoneMeans(expected, request, s.responses.kept, s.propagates.kept);
    if s.responses.kept != [] {
      assert s.responses.kept[0] in s.responses.kept;
    }
  }

  // ----- Verdicts -----

  function ToRow(r: Received): M.Response
    requires r.message.QueryResponse?
  {
    M.Response(r.publisherId, r.message.hashMap)
  }

  function ToRows(rs: seq<Received>): (rows: seq<M.Response>)
    requires AllOf(rs, Responses)
    ensures |rows| == |rs| && forall i :: 0 <= i < |rs| ==> rows[i] == ToRow(rs[i])
  {
    seq(|rs|, i requires 0 <= i < |rs| => ToRow(rs[i]))
  }

  /** The responses heard that answer the client's own query. */
  ghost function Answers(s: State, events: seq<Event>): set<Received>
    requires s.known.node.Some? && s.known.requestId.Some?
  {
    set r | r in Heard(Responses, events) && BelongsTo(r, Responses, s.known.node.value, s.known.requestId.value)
  }

  /**
   The two verdicts on the pools are verdicts on the answers heard: the nodes agree exactly when no two answers
   conflict, and a message of the HTTP response is found exactly when some answer lists it.
   */
  lemma VerdictsAreAboutAnswers(input: Input, events: seq<Event>, matrix: M.Matrix)
    requires IsRun(input, events) && FullySpecified(input.query)
    requires Run(input, events).known.node.Some? && Run(input, events).known.requestId.Some?
    requires var known := Run(input, events).known;
             OnlyOwnRequest(input, events, known.node.value, known.requestId.value)
    requires AllOf(Run(input, events).responses.kept, Responses)
    requires M.IsMatrixOf(matrix, ToRows(Run(input, events).responses.kept))
    ensures var answers := Answers(Run(input, events), events);
            && (forall r :: r in answers ==> r.message.QueryResponse?)
            && ((forall id :: id in matrix ==> M.SameHash(matrix[id])) <==> M.NoConflict(set r | r in answers :: ToRow(r)))
            && forall id :: M.Nodes(matrix, id) != [] <==>
                              exists r, hash :: r in answers && M.Lists(ToRow(r), id, hash)
  {
    var s := Run(input, events);
    var answers := Answers(s, events);
    var kept := s.responses.kept;
    var rows := ToRows(kept);
    OwnQueryIsCollected(input, events, Responses);
    forall r | r in Heard(Responses, events) ensures r.message.QueryResponse? {
      HeardAreOfKind(Responses, events, r);
    }
    assert AsSet(kept) == answers;
    assert forall r :: r in answers ==> r in kept;
    assert forall i :: 0 <= i < |kept| ==> kept[i] in answers;
    var heard := set r | r in answers :: ToRow(r);
    RowsAreRows(kept, answers);
    assert M.AsSet(rows) == heard;
    M.AgreementMeansNoConflict(rows, matrix);
    forall id ensures M.Nodes(matrix, id) != [] <==> exists r, hash :: r in answers && M.Lists(ToRow(r), id, hash) {
      M.PresenceMeansListed(rows, matrix, id);
      ListedByAnswer(answers, heard, id);
    }
  }

  lemma RowsAreRows(kept: seq<Received>, answers: set<Received>)
    requires AllOf(kept, Responses) && AsSet(kept) == answers
    ensures forall r :: r in answers ==> r.message.QueryResponse?
    ensures M.AsSet(ToRows(kept)) == set r | r in answers :: ToRow(r)
  {
    var rows := ToRows(kept);
    forall r | r in answers ensures r.message.QueryResponse? {
      assert r in kept;
    }
    forall row ensures row in rows <==> row in set r | r in answers :: ToRow(r) {
      if row in rows {
        var i :| 0 <= i < |rows| && rows[i] == row;
        assert kept[i] in answers;
      }
      if r :| r in answers && row == ToRow(r) {
        assert r in kept;
        var i :| 0 <= i < |kept| && kept[i] == r;
        assert rows[i] == row;
      }
    }
  }

  lemma ListedByAnswer(answers: set<Received>, rows: set<M.Response>, id: Text)
    requires forall r :: r in answers ==> r.message.QueryResponse?
    requires rows == set r | r in answers :: ToRow(r)
    ensures (exists row, hash :: row in rows && M.Lists(row, id, hash)) <==>
            exists r, hash :: r in answers && M.Lists(ToRow(r), id, hash)
  {
    if row, hash :| row in rows && M.Lists(row, id, hash) {
      var r :| r in answers && row == ToRow(r);
      assert M.Lists(ToRow(r), id, hash);
    }
    if r, hash :| r in answers && M.Lists(ToRow(r), id, hash) {
      assert ToRow(r) in rows;
    }
  }
}
